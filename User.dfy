/** The User aggregate: a credential record keyed by its username. */
module UserAggregate {
  import opened Common

  /** The five-field creation event that `createUser` builds. */
  datatype UserCreatedEvent = UserCreatedEvent(
    username: string, firstName: string, middleName: string, lastName: string, password: string)

  /** `createUser`: copies its arguments into the event. No id is generated
      (the username is the identity), the state is not read (there is no
      `reads` clause), and in particular no other user's name is checked. */
  function CreateUser(s: UserAggregateState, username: string, firstName: string, middleName: string,
                      lastName: string, password: string): (e: UserCreatedEvent)
    ensures e.username == username && e.firstName == firstName && e.middleName == middleName
    ensures e.lastName == lastName && e.password == password
  {
    UserCreatedEvent(username, firstName, middleName, lastName, password)
  }

  /** `UserAggregateState`: five `lateinit` fields, all assigned together by
      the one transition; `initialized` records whether that has happened. */
  class UserAggregateState {
    var initialized: bool
    var username: string
    var firstName: string
    var middleName: string
    var lastName: string
    var password: string

    constructor ()
      ensures !initialized
    {
      initialized := false;
      username, firstName, middleName, lastName, password := "", "", "", "", "";
    }

    /** `getId()`: the username, or a throw before creation. */
    function GetId(): (r: Result<string>)
      reads this
      ensures initialized ==> r == Ok(username)
      ensures !initialized ==> r == Err(UninitializedProperty)
    {
      if initialized then Ok(username) else Err(UninitializedProperty)
    }

    /** `userCreatedApply`: overwrites every field from the event, so the new
        state depends on the event alone. */
    method UserCreatedApply(e: UserCreatedEvent)
      modifies this
      ensures initialized
      ensures username == e.username && firstName == e.firstName && middleName == e.middleName
      ensures lastName == e.lastName && password == e.password
    {
      username := e.username;
      firstName := e.firstName;
      middleName := e.middleName;
      lastName := e.lastName;
      password := e.password;
      initialized := true;
    }

    /** The framework's `create { it.createUser(…) }`: run the command on this
        state, fold its event back in, return the event. */
    method Create(username': string, firstName': string, middleName': string, lastName': string,
                  password': string) returns (e: UserCreatedEvent)
      modifies this
      ensures e == CreateUser(this, username', firstName', middleName', lastName', password')
      ensures GetId() == Ok(username')
      ensures firstName == firstName' && middleName == middleName' && lastName == lastName' && password == password'
    {
      e := CreateUser(this, username', firstName', middleName', lastName', password');
      UserCreatedApply(e);
    }

    /** Applying the same creation event twice gives the state applying it once gives. */
    method ApplyTwice(e: UserCreatedEvent)
      modifies this
      ensures GetId() == Ok(e.username) && firstName == e.firstName && middleName == e.middleName
      ensures lastName == e.lastName && password == e.password
    {
      UserCreatedApply(e);
      ghost var once := (username, firstName, middleName, lastName, password);
      UserCreatedApply(e);
      assert (username, firstName, middleName, lastName, password) == once;
    }
  }
}
