/** Vocabulary shared by every aggregate: identifiers, optional values, the
    domain errors the command and fold functions raise, and first-match
    search (the Kotlin `.first { }` / `.any { }` idiom). */
module Common {

  /** A `java.util.UUID`. Only equality is ever applied to one, so any type
      with equality would do; ids generated by `UUID.randomUUID()` are passed
      in as explicit parameters. */
  type Uuid = nat

  /** A nullable Kotlin value (`T?`). */
  datatype Option<T> = None | Some(value: T)

  /** Every way a command or a state transition of the core can throw. */
  datatype Error =
    | MemberNotFound         // assignPersonToTask: the person is not a member
    | AlreadyAssigned        // assignPersonToTask: the person is already an assignee
    | StatusNotFound         // updateTaskStatus: no status has that id
    | StatusInUse            // deleteStatus: some task still has that status
    | AlreadyMember          // addPerson: a member with that id exists
    | PersonNotFound         // addPerson: personId is null
    | UsernameRequired       // addPerson: username is null
    | FirstNameRequired      // addPerson: firstName is null
    | MiddleNameRequired     // addPerson: middleName is null
    | LastNameRequired       // addPerson: lastName is null
    | NoSuchTask             // `tasks.first { }` found no task with that id
    | NoSuchStatus           // `statuses.first { }` found no status with that id
    | UninitializedProperty  // a `lateinit` field read before the creation event

  /** The outcome of a step that either yields a value or throws. */
  datatype Result<T> = Ok(value: T) | Err(error: Error)

  /** Index of the first occurrence of `id` in `ids`, if any: the position
      `.first { it.id == id }` stops at. */
  function FirstIndex(ids: seq<Uuid>, id: Uuid): (r: Option<nat>)
    ensures r.None? <==> id !in ids
    ensures r.Some? ==> r.value < |ids| && ids[r.value] == id && id !in ids[..r.value]
  {
    if ids == [] then None
    else if ids[0] == id then Some(0)
    else
      match FirstIndex(ids[1..], id)
      case None => None
      case Some(k) =>
        assert ids[..k + 1] == [ids[0]] + ids[1..][..k];
        Some(k + 1)
  }

  /** `ids.filter { it != id }`: every entry except those equal to `id`, in order. */
  function IdsWithout(ids: seq<Uuid>, id: Uuid): (r: seq<Uuid>)
    ensures forall x :: x in r <==> x in ids && x != id
    ensures |r| <= |ids|
  {
    if ids == [] then []
    else (if ids[0] == id then [] else [ids[0]]) + IdsWithout(ids[1..], id)
  }
}
