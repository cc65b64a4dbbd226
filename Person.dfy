/** The Person aggregate: a profile created once from a user and never
    changed afterwards. */
module PersonAggregate {
  import opened Common

  datatype PersonCreatedEvent = PersonCreatedEvent(
    personId: Uuid, username: string, firstName: string, middleName: string, lastName: string, userId: Uuid)

  /** `createPerson`: copies its arguments into the event; the person id is
      freshly generated, not taken from the arguments or the state. The state
      is a parameter that the function is not allowed to read (it has no
      `reads` clause), which is the proof that the command ignores it. */
  function CreatePerson(s: PersonAggregateState, username: string, firstName: string, middleName: string,
                        lastName: string, userId: Uuid, newPersonId: Uuid): (e: PersonCreatedEvent)
    ensures e.personId == newPersonId && e.userId == userId
    ensures e.username == username && e.firstName == firstName && e.middleName == middleName && e.lastName == lastName
  {
    PersonCreatedEvent(newPersonId, username, firstName, middleName, lastName, userId)
  }

  /** `PersonAggregateState`: six `lateinit` fields, all assigned together by
      the one transition; `initialized` records whether that has happened. */
  class PersonAggregateState {
    var initialized: bool
    var personId: Uuid
    var username: string
    var firstName: string
    var middleName: string
    var lastName: string
    var userId: Uuid

    constructor ()
      ensures !initialized
    {
      initialized := false;
      personId, username, firstName, middleName, lastName, userId := 0, "", "", "", "", 0;
    }

    /** `getId()`: the person id, or a throw before creation. */
    function GetId(): (r: Result<Uuid>)
      reads this
      ensures initialized ==> r == Ok(personId)
      ensures !initialized ==> r == Err(UninitializedProperty)
    {
      if initialized then Ok(personId) else Err(UninitializedProperty)
    }

    /** `personCreatedApply`: overwrites every field from the event, so the
        new state depends on the event alone and applying the same event
        again leaves it as it is. */
    method PersonCreatedApply(e: PersonCreatedEvent)
      modifies this
      ensures initialized
      ensures personId == e.personId && username == e.username && firstName == e.firstName
      ensures middleName == e.middleName && lastName == e.lastName && userId == e.userId
    {
      personId := e.personId;
      username := e.username;
      firstName := e.firstName;
      middleName := e.middleName;
      lastName := e.lastName;
      userId := e.userId;
      initialized := true;
    }

    /** The framework's `create { it.createPerson(…) }`: run the command on
        this state, fold its event back in, return the event. */
    method Create(username': string, firstName': string, middleName': string, lastName': string,
                  userId': Uuid, newPersonId: Uuid) returns (e: PersonCreatedEvent)
      modifies this
      ensures e == CreatePerson(this, username', firstName', middleName', lastName', userId', newPersonId)
      ensures GetId() == Ok(newPersonId)
      ensures username == username' && firstName == firstName' && middleName == middleName'
      ensures lastName == lastName' && userId == userId'
    {
      e := CreatePerson(this, username', firstName', middleName', lastName', userId', newPersonId);
      PersonCreatedApply(e);
    }

    /** Applying the same creation event twice gives the state applying it once gives. */
    method ApplyTwice(e: PersonCreatedEvent)
      modifies this
      ensures GetId() == Ok(e.personId) && username == e.username && firstName == e.firstName
      ensures middleName == e.middleName && lastName == e.lastName && userId == e.userId
    {
      PersonCreatedApply(e);
      ghost var once := (personId, username, firstName, middleName, lastName, userId);
      PersonCreatedApply(e);
      assert (personId, username, firstName, middleName, lastName, userId) == once;
    }
  }
}
