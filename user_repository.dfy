/** The in-memory user store the sign-up and sign-in tests run against. Its
    implementation is not part of this model; it is taken to keep users in
    insertion order and to number them like the note store, with a counter
    that starts at 0. */
module UserRepository {
  import opened Shared
  import opened Arrays
  import opened Records

  function HasEmail(email: string): UserData -> bool
  {
    (user: UserData) => user.email == email
  }

  /** `findByEmail` over a list of stored users. */
  function UserWithEmail(users: seq<UserData>, email: string): (r: Option<UserData>)
    ensures r.None? <==> forall j | 0 <= j < |users| :: users[j].email != email
    ensures r.Some? ==> r.value in users && r.value.email == email
  {
    Find(users, HasEmail(email))
  }

  class InMemoryUserRepository {
    var users: seq<UserData>
    var idCounter: nat

    constructor (initial: seq<UserData>)
      ensures users == initial && idCounter == 0
    {
      users := initial;
      idCounter := 0;
    }

    method FindAll() returns (all: seq<UserData>)
      ensures all == users
    {
      all := users;
    }

    method FindByEmail(email: string) returns (user: Option<UserData>)
      ensures user.None? <==> forall j | 0 <= j < |users| :: users[j].email != email
      ensures user.Some? ==> user.value in users && user.value.email == email
      ensures user == UserWithEmail(users, email)
    {
      user := UserWithEmail(users, email);
    }

    /** Stores the user under a fresh id and returns the stored record. */
    method Add(user: UserData) returns (added: UserData)
      modifies this
      ensures added == user.(id := Some(Decimal(old(idCounter))))
      ensures idCounter == old(idCounter) + 1
      ensures users == old(users) + [added]
    {
      added := user.(id := Some(Decimal(idCounter)));
      idCounter := idCounter + 1;
      users := users + [added];
    }
  }
}
