# Project tracker aggregates in Dafny

A model of the domain core of an event-sourced project/task tracker written
in Kotlin. The tracker keeps three aggregates:

- **Project**, with members, tasks and an ordered list of statuses.
- **Person**, a profile.
- **User**, a credential record keyed by username.

A *command* reads an aggregate's current state and either returns one event
or throws. A *state transition function* folds an event into the state. The
project controller's write handlers chain several commands. Each command
runs in its own `projectService.update` call, and nothing groups those calls.

Files and modules:

- `Common.dfy` (`Common`): ids, `Option`, `Result`, the domain errors, and
  first-match search (`.first { }`).
- `ProjectAggregate.dfy` (`ProjectAggregate`):
  - the events and records of the Project aggregate;
  - `Evolve`, the fold as a pure function over `Project` values, and
    `Replay`, the fold of a whole log;
  - the lemmas about the fold;
  - the class `ProjectAggregateState`. Its `*Apply` methods update `header`,
    `members`, `tasks` and `statuses` in place. `ApplyEvent` is proved to
    agree with `Evolve`.
- `ProjectCommands.dfy` (`ProjectCommands`): the nine commands. Each is a
  function of the state value and its arguments that returns an event or a
  `Result`. The module also holds lemmas that compose a command with the
  fold.
- `ProjectController.dfy` (`ProjectController`):
  - `Update`, the framework step "run the command on the current state,
    fold its event in, append it";
  - the handlers `createProject`, `addMemberToProject`, `createStatus`,
    `updateStatusOrder` and `deleteStatus`, as methods over the state object.
- `Person.dfy` (`PersonAggregate`) and `User.dfy` (`UserAggregate`): each
  has one creation command, one state class and one transition.

Modelling choices:

- Ids are `nat`. The source only compares ids for equality. Ids that the
  source draws from `UUID.randomUUID()` are parameters named `new…Id`.
- Where the source throws, the model returns `Err`. This covers `require`,
  `requireNotNull`, a `.first { }` that finds nothing, and a `lateinit` read
  before initialisation.
- A transition that throws does so before it writes anything, so the model
  leaves the state unchanged in that case.
- The commands emit `PersonAssignedEvent` and `PersonAddedToProjectEvent`.
  The fold handles `MemberAssignedEvent` and `MemberCreatedEvent`. Each pair
  is modelled as one event: `MemberAssigned` and `MemberCreated`. The
  person's id becomes the member id.
- Some commands take a `projectId` that the event class does not declare.
  That argument is dropped.
- The project's `lateinit projectId`/`title` become
  `Header = Uninitialized | Active(projectId, title)`. The Person and User
  states keep their fields and add an `initialized` flag.
- `tasks` is a hash set of data classes in the source. It is modelled as a
  sequence in insertion order. Adding a task equal to one already present
  does nothing.
- The order of statuses is stated exactly only when no two different
  statuses share an id (`SameIdSameStatus`). That holds as long as status
  ids are fresh (`EvolvePreservesSameIdSameStatus`). Without it, the model
  still states the resulting list of ids exactly.

Behaviour that the code does not have, and that the model therefore does
not have either:

- `createTask` does not check the status or the assignees.
- The assignment transition appends the member without checking for a
  duplicate. Only the `assignPersonToTask` command refuses a duplicate.
- `createUser` does not check that the username is new.
- Only `createStatus` and `getId` read the project's `lateinit` fields, so
  the other commands work on an uninitialised state.
- `updateStatusOrder` does not check the list it is given. The transition
  throws only when the list names an unknown id.

## Model

| member | source | states |
|---|---|---|
| `Common.FirstIndex` | src/main/kotlin/ru/quipy/logic/project/ProjectAggregateState.kt:31 | The index `.first { }` stops at. None exactly when the id is absent. Otherwise the position holds the id and no earlier position does. |
| `Common.IdsWithout` | src/main/kotlin/ru/quipy/controller/ProjectController.kt:199 | `filter { it != id }` keeps exactly the other ids and never lengthens the list. |
| `ProjectAggregate.Reorder` | src/main/kotlin/ru/quipy/logic/project/ProjectAggregateState.kt:29-33 | `statusesUpdatedApply`'s lookup succeeds iff every id in the event is a current status id. The result has the event list's length, and entry `i` has id `event.statuses[i]`. Each entry is the first current status with that id. |
| `ProjectAggregate.RemoveStatus` | src/main/kotlin/ru/quipy/logic/project/ProjectAggregateState.kt:96-98 | `removeIf` keeps exactly the statuses whose id differs, so no status with that id remains. |
| `ProjectAggregate.RemoveStatusAppend` | src/main/kotlin/ru/quipy/logic/project/ProjectAggregateState.kt:97 | Removal distributes over concatenation, so the survivors keep their relative order. |
| `ProjectAggregate.RemoveStatusAbsent` | src/main/kotlin/ru/quipy/logic/project/ProjectAggregateState.kt:97 | Removing an id that no status has leaves the list unchanged. |
| `ProjectAggregate.IdsWithoutStatusIds` | src/main/kotlin/ru/quipy/controller/ProjectController.kt:199 | The order `deleteStatus` computes (map to ids, then filter) equals the ids of the statuses that `removeIf` would keep. |
| `ProjectAggregate.FirstStatusIsTheStatus` | src/main/kotlin/ru/quipy/logic/project/ProjectAggregateState.kt:31 | When ids determine statuses, the `.first { }` lookup of a status's id returns that status. |
| `ProjectAggregate.ReorderByOwnIds` | src/main/kotlin/ru/quipy/logic/project/ProjectAggregateState.kt:29-33 | Ordering by the ids of any list drawn from the current statuses reproduces that list exactly. |
| `ProjectAggregate.ReorderPermutation` | src/main/kotlin/ru/quipy/logic/project/ProjectAggregateState.kt:29-33 | An order naming exactly the current ids succeeds. The result keeps the order's length and holds exactly the same statuses as before. |
| `ProjectAggregate.AddTask` | src/main/kotlin/ru/quipy/logic/project/ProjectAggregateState.kt:37 | `tasks.add` on the set declared at line 12. Adding a task equal to one already present leaves the list unchanged. Otherwise the task is appended, nothing else is added, and existing tasks keep their places. |
| `ProjectAggregate.Changed` | src/main/kotlin/ru/quipy/logic/project/ProjectAggregateState.kt:48-68 | Each in-place edit changes one field of the task: its status, its title, or its assignees (with the member appended unconditionally). Id and projectId never change. |
| `ProjectAggregate.FindTask` | src/main/kotlin/ru/quipy/logic/project/ProjectAggregateState.kt:51 | `tasks.first { it.id == id }` finds a task iff one has that id. The task it finds is the first one with that id. |
| `ProjectAggregate.UpdateTask` | src/main/kotlin/ru/quipy/logic/project/ProjectAggregateState.kt:56-68 | An edit fails iff no task has the id. Otherwise only the first task with that id changes, and every other task is unchanged. |
| `ProjectAggregate.FindAfterUpdate` | src/main/kotlin/ru/quipy/logic/project/ProjectAggregateState.kt:48-68 | After an edit, looking up the same task id finds the edited task. |
| `ProjectAggregate.Evolve` | src/main/kotlin/ru/quipy/logic/project/ProjectAggregateState.kt:22-98 | The whole fold, one case per transition. It fails exactly where `.first { }` finds nothing: with `NoSuchStatus` when a reorder names an unknown id, and with `NoSuchTask` when a task edit names an unknown task. Every other transition succeeds. |
| `ProjectAggregate.EvolveTouchesOnlyItsField` | src/main/kotlin/ru/quipy/logic/project/ProjectAggregateState.kt:22-98 | A successful transition changes only its own field. The header is set only by project creation. One member is appended only by member creation. The statuses are reordered to the event's ids, have the one status appended, or lose the deleted id. The tasks gain the created task, or are edited with their ids kept. |
| `ProjectAggregate.EditTask` | src/main/kotlin/ru/quipy/logic/project/ProjectAggregateState.kt:48-68 | A task edit fails with `NoSuchTask` iff no task has the id. Otherwise only the tasks change, by `UpdateTask`. |
| `ProjectAggregate.ReplaySnoc` | src/main/kotlin/ru/quipy/logic/project/ProjectAggregateState.kt:22-98 | Replaying a log that has one more event equals folding that event into the replay of the shorter log. |
| `ProjectAggregate.EvolvePreservesSameIdSameStatus` | src/main/kotlin/ru/quipy/logic/project/ProjectAggregateState.kt:71-98 | If status ids are fresh, no transition makes two different statuses share an id. |
| `ProjectAggregate.ProjectAggregateState.constructor` | src/main/kotlin/ru/quipy/logic/project/ProjectAggregateState.kt:8-13 | A new state is uninitialised, and its members, tasks and statuses are empty. |
| `ProjectAggregate.ProjectAggregateState.GetId` | src/main/kotlin/ru/quipy/logic/project/ProjectAggregateState.kt:15 | Returns `projectId` once the project is created. Before that it throws. |
| `ProjectAggregate.ProjectAggregateState.ProjectCreatedApply` | src/main/kotlin/ru/quipy/logic/project/ProjectAggregateState.kt:22-26 | Sets `projectId` and `title` from the event. Members, tasks and statuses stay as they were. |
| `ProjectAggregate.ProjectAggregateState.StatusesUpdatedApply` | src/main/kotlin/ru/quipy/logic/project/ProjectAggregateState.kt:28-33 | Succeeds iff every id in the event is present. On success the statuses are the reordered list, with the event's length and ids. On failure nothing changes. |
| `ProjectAggregate.ProjectAggregateState.TaskCreatedApply` | src/main/kotlin/ru/quipy/logic/project/ProjectAggregateState.kt:35-46 | Adds a task whose id, projectId, title, statusId and assignees equal the event's. Nothing else changes. |
| `ProjectAggregate.ProjectAggregateState.EditTaskApply` | src/main/kotlin/ru/quipy/logic/project/ProjectAggregateState.kt:48-68 | An in-place task edit succeeds iff the task exists. It edits the first matching task only, and members, statuses and header stay unchanged. |
| `ProjectAggregate.ProjectAggregateState.MemberAssignedToTaskApply` | src/main/kotlin/ru/quipy/logic/project/ProjectAggregateState.kt:48-54 | Appends `memberId` to the task's assignees with no de-duplication. Fails, changing nothing, if the task is absent. |
| `ProjectAggregate.ProjectAggregateState.TaskStatusUpdatedApply` | src/main/kotlin/ru/quipy/logic/project/ProjectAggregateState.kt:56-61 | Changes only that task's `statusId`. Fails, changing nothing, if the task is absent. |
| `ProjectAggregate.ProjectAggregateState.TaskRenamedApply` | src/main/kotlin/ru/quipy/logic/project/ProjectAggregateState.kt:63-68 | Changes only that task's `title`. Fails, changing nothing, if the task is absent. |
| `ProjectAggregate.ProjectAggregateState.StatusCreatedApply` | src/main/kotlin/ru/quipy/logic/project/ProjectAggregateState.kt:70-80 | Appends exactly one status with the event's id, projectId, name and color. Earlier statuses and all other fields are unchanged. |
| `ProjectAggregate.ProjectAggregateState.MemberCreatedApply` | src/main/kotlin/ru/quipy/logic/project/ProjectAggregateState.kt:82-93 | Appends one member with the event's id and name fields. Existing members are unchanged. |
| `ProjectAggregate.ProjectAggregateState.StatusDeletedApply` | src/main/kotlin/ru/quipy/logic/project/ProjectAggregateState.kt:95-98 | Removes every status with the event's id and leaves tasks untouched. |
| `ProjectAggregate.ProjectAggregateState.ApplyEvent` | src/main/kotlin/ru/quipy/logic/project/ProjectAggregateState.kt:22-98 | Dispatches an event to its transition. The new state is exactly `Evolve` of the old state. When the transition throws, the state is unchanged. |
| `ProjectCommands.CreateProject` | src/main/kotlin/ru/quipy/logic/project/ProjectAggregateCommands.kt:8-15 | Never fails. It emits the fresh project id and the title and ignores the creator's person id. |
| `ProjectCommands.CreateTask` | src/main/kotlin/ru/quipy/logic/project/ProjectAggregateCommands.kt:17-30 | Never fails. It passes every argument through with a fresh task id and does not check the status. |
| `ProjectCommands.AssignPersonToTask` | src/main/kotlin/ru/quipy/logic/project/ProjectAggregateCommands.kt:32-46 | Fails if the person is not a member, then if the task is absent, then if the person is already an assignee. Succeeds in every other case, with `memberId == personId`. |
| `ProjectCommands.UpdateTaskName` | src/main/kotlin/ru/quipy/logic/project/ProjectAggregateCommands.kt:48-58 | Never fails. It emits the given task id and title. |
| `ProjectCommands.UpdateTaskStatus` | src/main/kotlin/ru/quipy/logic/project/ProjectAggregateCommands.kt:60-72 | Fails iff the status id is not a current status id. Otherwise it emits the given taskId and statusId. |
| `ProjectCommands.CreateStatus` | src/main/kotlin/ru/quipy/logic/project/ProjectAggregateCommands.kt:74-84 | Stamps the state's own project id and throws iff that id is unset. It emits the given name and color with a fresh status id. Name and color default to "CREATED" and "#000000". |
| `ProjectCommands.UpdateStatusOrder` | src/main/kotlin/ru/quipy/logic/project/ProjectAggregateCommands.kt:86-94 | Never fails. It passes the list through unchanged. |
| `ProjectCommands.DeleteStatus` | src/main/kotlin/ru/quipy/logic/project/ProjectAggregateCommands.kt:96-106 | Fails iff some task's `statusId` equals the argument. Otherwise it emits a delete for that id. |
| `ProjectCommands.AddPerson` | src/main/kotlin/ru/quipy/logic/project/ProjectAggregateCommands.kt:108-132 | Fails if a member already has that id. Then it fails on the first null among personId, username, firstName, middleName and lastName. Otherwise the event copies all of them. |
| `ProjectCommands.CreateProjectRoundTrip` | src/main/kotlin/ru/quipy/logic/project/ProjectAggregateState.kt:22-26 | Folding the `createProject` event sets the header and touches nothing else. |
| `ProjectCommands.AssignTwiceRejected` | src/main/kotlin/ru/quipy/logic/project/ProjectAggregateCommands.kt:39 | An accepted assignment folds successfully. Afterwards the same assignment fails with `AlreadyAssigned`. |
| `ProjectCommands.AssignAddsOnce` | src/main/kotlin/ru/quipy/logic/project/ProjectAggregateState.kt:48-54 | Folding an accepted assignment appends the member to that task's assignees exactly once. |
| `ProjectCommands.UpdateTaskStatusRoundTrip` | src/main/kotlin/ru/quipy/logic/project/ProjectAggregateCommands.kt:60-72 | An accepted status change, once folded, gives the task the new status. |
| `ProjectCommands.DeleteAfterReassign` | src/main/kotlin/ru/quipy/logic/project/ProjectAggregateCommands.kt:100 | Assume task ids are unique and the only task holding status `s` moves to another status. Then deleting `s` is accepted. |
| `ProjectCommands.CreateTaskUnchecked` | src/main/kotlin/ru/quipy/logic/project/ProjectAggregateCommands.kt:17-30 | A task with an unknown status is accepted, and the fold stores the dangling reference. |
| `ProjectController.ProfileOf` | src/main/kotlin/ru/quipy/controller/ProjectController.kt:38-47 | `person?.field`: every field is null for an unknown person. Reading an uninitialised person throws. |
| `ProjectController.Update` | src/main/kotlin/ru/quipy/controller/ProjectController.kt:33-35 | One update call. A failing command or transition appends nothing and leaves the state unchanged. On success the event is appended, the state is its fold, and replaying the log still gives the state. |
| `ProjectController.AppendedFailingEventBlocksReplay` | src/main/kotlin/ru/quipy/controller/ProjectController.kt:33-35 | If an accepted event whose transition throws were appended, replaying the log would fail with that transition's error. |
| `ProjectController.RenameAbsentTaskBlocksReplay` | src/main/kotlin/ru/quipy/logic/project/ProjectAggregateCommands.kt:48-58 | `updateTaskName` on an absent task is accepted. Appending its event leaves a log whose replay fails with `NoSuchTask` (the lookup at ProjectAggregateState.kt:66). |
| `ProjectController.RestatusAbsentTaskBlocksReplay` | src/main/kotlin/ru/quipy/logic/project/ProjectAggregateCommands.kt:60-72 | `updateTaskStatus` to a current status on an absent task is accepted. Appending its event leaves a log whose replay fails with `NoSuchTask` (the lookup at ProjectAggregateState.kt:59). |
| `ProjectController.UnknownOrderBlocksReplay` | src/main/kotlin/ru/quipy/logic/project/ProjectAggregateCommands.kt:86-94 | `updateStatusOrder` naming an unknown status id is accepted. Appending its event leaves a log whose replay fails with `NoSuchStatus` (the lookup at ProjectAggregateState.kt:31). |
| `ProjectController.CreateProject` | src/main/kotlin/ru/quipy/controller/ProjectController.kt:24-57 | The project is created, then the default status "CREATED"/"#000000", then the creator is added. For an unknown creator the last step fails and the project and status remain, with no rollback. |
| `ProjectController.AddMemberToProject` | src/main/kotlin/ru/quipy/controller/ProjectController.kt:59-78 | An unknown person arrives as nulls and is refused with `PersonNotFound`. An existing member is refused. Otherwise one member is appended. |
| `ProjectController.CreateStatus` | src/main/kotlin/ru/quipy/controller/ProjectController.kt:148-174 | The emitted order is the old ids followed by the new id twice, and the fold stores the new status twice. The old ids stay a prefix in their old order. |
| `ProjectController.CreateStatusOnce` | src/main/kotlin/ru/quipy/controller/ProjectController.kt:154-166 | Corrected `createStatus`: the new status is appended exactly once and the old statuses are unchanged. |
| `ProjectController.ReorderWithNewIdTwice` | src/main/kotlin/ru/quipy/controller/ProjectController.kt:154-166 | On values, as written: the status is appended, and the order then names its id a second time. The reorder succeeds with ids equal to the old ids plus the new id twice. When ids are fresh it stores the status twice. |
| `ProjectController.ReorderWithNewIdOnce` | src/main/kotlin/ru/quipy/controller/ProjectController.kt:154-166 | On values, corrected: ordering by the ids the state already holds keeps the appended status exactly once. No two different statuses share an id afterwards. |
| `ProjectController.UpdateStatusOrder` | src/main/kotlin/ru/quipy/controller/ProjectController.kt:176-189 | The list is forwarded unchecked. The step fails iff it names an unknown id. On success the ids equal the list. A permutation keeps the same set of statuses. |
| `ProjectController.DeleteStatus` | src/main/kotlin/ru/quipy/controller/ProjectController.kt:191-217 | The status always leaves the ordered list. When the in-use check refuses, a task still refers to it. On success the others keep their relative order. |
| `ProjectController.DeleteStatusChecked` | src/main/kotlin/ru/quipy/controller/ProjectController.kt:197-209 | Corrected `deleteStatus`: a refused delete changes nothing. An accepted one removes the status and keeps the order of the others. |
| `ProjectController.DropFromOrder` | src/main/kotlin/ru/quipy/controller/ProjectController.kt:197-201 | The order step of `deleteStatus` always succeeds and changes only the statuses. Their ids become the old ids without the deleted one. A `StatusDeleted` for that id then changes nothing. |
| `ProjectController.ReorderDropped` | src/main/kotlin/ru/quipy/controller/ProjectController.kt:197-201 | Reordering by the ids without the deleted one succeeds and keeps no status with that id. When ids determine statuses, it equals what `removeIf` would leave. |
| `ProjectController.CreateStatusTwiceExample` | src/main/kotlin/ru/quipy/controller/ProjectController.kt:161-166 | On a project without statuses, creating status 7 emits order `[7, 7]` and lists the status twice. |
| `ProjectController.DeleteStatusInUseExample` | src/main/kotlin/ru/quipy/controller/ProjectController.kt:197-209 | When task 9 holds the only status 5, the order step empties the status list and the delete is then refused. |
| `PersonAggregate.CreatePerson` | src/main/kotlin/ru/quipy/logic/person/PersonAggregateCommands.kt:6-20 | Never fails and does not read the state. Username, names and userId are copied from the arguments. The person id is the freshly generated one. |
| `PersonAggregate.PersonAggregateState.constructor` | src/main/kotlin/ru/quipy/logic/person/PersonAggregateState.kt.kt:9-15 | A new person state has its `lateinit` fields unset. |
| `PersonAggregate.PersonAggregateState.GetId` | src/main/kotlin/ru/quipy/logic/person/PersonAggregateState.kt.kt:17 | Returns `personId`, and throws before creation. |
| `PersonAggregate.PersonAggregateState.PersonCreatedApply` | src/main/kotlin/ru/quipy/logic/person/PersonAggregateState.kt.kt:19-27 | All six fields equal the event's afterwards. |
| `PersonAggregate.PersonAggregateState.Create` | src/main/kotlin/ru/quipy/logic/person/PersonAggregateState.kt.kt:20-27 | Round trip: folding `createPerson`'s event gives exactly those username, names and userId, with `getId()` equal to the fresh id. |
| `PersonAggregate.PersonAggregateState.ApplyTwice` | src/main/kotlin/ru/quipy/logic/person/PersonAggregateState.kt.kt:21-26 | Applying the creation event twice gives the same state as applying it once. |
| `UserAggregate.CreateUser` | src/main/kotlin/ru/quipy/logic/user/UserAggregateCommands.kt:5-17 | Never fails and does not read the state. No id is generated and usernames are not checked for uniqueness. All five fields are copied from the arguments. |
| `UserAggregate.UserAggregateState.constructor` | src/main/kotlin/ru/quipy/logic/user/UserAggregateState.kt:9-14 | A new user state has its `lateinit` fields unset. |
| `UserAggregate.UserAggregateState.GetId` | src/main/kotlin/ru/quipy/logic/user/UserAggregateState.kt:16 | Returns `username`, and throws before creation. |
| `UserAggregate.UserAggregateState.UserCreatedApply` | src/main/kotlin/ru/quipy/logic/user/UserAggregateState.kt:18-25 | All five fields equal the event's afterwards. |
| `UserAggregate.UserAggregateState.Create` | src/main/kotlin/ru/quipy/logic/user/UserAggregateState.kt:16-25 | Round trip: folding `createUser`'s event gives `getId()` equal to the username, and the other four fields equal the arguments. |
| `UserAggregate.UserAggregateState.ApplyTwice` | src/main/kotlin/ru/quipy/logic/user/UserAggregateState.kt:20-24 | Applying the creation event twice gives the same state as applying it once. |

## Findings

| source | as written | input that shows it | evidently intended | confidence | as-written member | corrected member |
|---|---|---|---|---|---|---|
| src/main/kotlin/ru/quipy/controller/ProjectController.kt:161-166 | The order step reads a state that already holds the new status, then appends the new id once more. | A project with no statuses creates status 7. The order is `[7, 7]` and the project lists status 7 twice. | The new status is appended once, after the existing ones. | high; not executed | `ProjectController.CreateStatus` (example: `ProjectController.CreateStatusTwiceExample`) | `ProjectController.CreateStatusOnce` |
| src/main/kotlin/ru/quipy/controller/ProjectController.kt:197-209 | The order update that drops the status is appended before `deleteStatus` runs its in-use check. | Task 9 holds status 5, the project's only status. After `deleteStatus(5)` is refused, the project has no statuses and task 9 still refers to 5. | A refused deletion leaves the project unchanged. | high; not executed | `ProjectController.DeleteStatus` (example: `ProjectController.DeleteStatusInUseExample`) | `ProjectController.DeleteStatusChecked` |

## Left out

- ProjectController.Update: the model folds an accepted event before it
  appends it. An event whose transition throws is dropped and reported as a
  refusal. The runtime that does the append is not part of this model. If it
  appends every accepted event first, three paths leave a log that no
  longer replays, so the project can no longer be loaded:
  - `updateTaskName` on an absent task;
  - `updateTaskStatus` to a current status on an absent task;
  - `updateStatusOrder` naming an unknown id.

  `RenameAbsentTaskBlocksReplay`, `RestatusAbsentTaskBlocksReplay` and
  `UnknownOrderBlocksReplay` state that outcome for each path.

- The event store and the aggregate runtime are not part of this model.
  That covers replay, append, optimistic concurrency, subscription delivery
  and serialising commands per aggregate. `Update` and `Replay` stand for
  them. The model assumes that an event whose transition throws is not
  appended.
- Concurrency is left out: each handler runs alone against one state.
- The read-model projections, the GET handlers of the project controller,
  and the user and task controllers are left out. They are I/O and HTTP
  mapping. The single-command handlers (`createTask`, `assignMemberToTask`,
  `updateTaskStatus`, `updateTaskName`) are one `Update` each, so they have
  no method of their own.
- The event timestamps (`createdAt`) are left out. They come from the clock.
- `UUID.randomUUID()` is replaced by explicit id parameters. Their freshness
  appears only as a hypothesis where a result depends on it.
- Aliasing is not captured. The source stores the event's mutable
  `assignees` list in the task itself, so a later assignment also changes
  the event's list. The model copies values.
- A hash set whose elements are mutated after insertion is not modelled.
  Tasks are a sequence, searched in insertion order.
- The TaskStatus and Member aggregates are left out, because their commands
  are unfinished. The commented-out and conflicting revisions of the
  project and user files are left out too.
- A check that usernames are unique is not modelled, because no code
  implements it.
- ProjectController.CreateStatus: the exact new list of statuses is stated
  only when ids determine statuses and the new id is fresh. Otherwise only
  the list of ids is stated.
- ProjectController.DeleteStatus: the exact new list of statuses is stated
  only when ids determine statuses. Otherwise only the list of ids is stated.
- ProjectAggregate.ReorderPermutation: states that the set of statuses is
  kept, not the multiset.
