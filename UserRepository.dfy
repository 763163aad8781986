/**
 * The in-memory user table: a map from e-mail address to user, seeded with
 * two users and changed in place by create, update and delete. Its invariant
 * is that every user is stored under its own e-mail address.
 */
module Repository {
  import opened Wrappers

  /**
   * A user, identified by e-mail. The id is carried but never read here; the
   * repository always creates users with no id.
   */
  datatype User = User(id: Option<int>, email: string)

  /** Every key of the table is the e-mail of the user stored under it. */
  ghost predicate KeyedByEmail(users: map<string, User>) {
    forall e | e in users :: users[e].email == e
  }

  /** The table after `put(user.email, user)`. */
  function Created(users: map<string, User>, user: User): (r: map<string, User>)
    ensures user.email in r && r[user.email] == user
    ensures r.Keys == users.Keys + {user.email}
    ensures forall e | e in users && e != user.email :: r[e] == users[e]
  {
    users[user.email := user]
  }

  /** The table after `remove(email)` followed by `put(user.email, user)`. */
  function Updated(users: map<string, User>, email: string, user: User): (r: map<string, User>)
    ensures user.email in r && r[user.email] == user
    ensures email != user.email ==> email !in r
    ensures r.Keys == users.Keys - {email} + {user.email}
    ensures forall e | e in r && e != email && e != user.email :: r[e] == users[e]
  {
    Created(users - {email}, user)
  }

  /** The table after `remove(email)`. */
  function Deleted(users: map<string, User>, email: string): (r: map<string, User>)
    ensures email !in r
    ensures r.Keys == users.Keys - {email}
    ensures forall e | e in r :: r[e] == users[e]
  {
    users - {email}
  }

  /** Updating under an e-mail that is not in the table is the same as creating. */
  lemma UpdateOfAbsentIsCreate(users: map<string, User>, email: string, user: User)
    requires email !in users
    ensures Updated(users, email, user) == Created(users, user)
  {
    assert users - {email} == users;
  }

  /** Updating a user under its own e-mail is the same as creating it. */
  lemma UpdateInPlaceIsCreate(users: map<string, User>, user: User)
    ensures Updated(users, user.email, user) == Created(users, user)
  {
  }

  /** Deleting twice has the effect of deleting once. */
  lemma DeleteIdempotent(users: map<string, User>, email: string)
    ensures Deleted(Deleted(users, email), email) == Deleted(users, email)
  {
  }

  /** Creating, updating and deleting each keep every user under its own e-mail. */
  lemma OperationsKeepKeyedByEmail(users: map<string, User>, email: string, user: User)
    requires KeyedByEmail(users)
    ensures KeyedByEmail(Created(users, user))
    ensures KeyedByEmail(Updated(users, email, user))
    ensures KeyedByEmail(Deleted(users, email))
  {
  }

  class UserRepository {
    var users: map<string, User>

    ghost predicate Valid()
      reads this
    {
      KeyedByEmail(users)
    }

    /** Seeds the table with foo@gmail.com and bar@gmail.com, neither with an id. */
    constructor ()
      ensures Valid()
      ensures users.Keys == {"foo@gmail.com", "bar@gmail.com"}
      ensures forall e | e in users :: users[e] == User(None, e)
    {
      var user1 := User(None, "foo@gmail.com");
      var user2 := User(None, "bar@gmail.com");
      users := map[];
      new;
      users := users[user1.email := user1];
      users := users[user2.email := user2];
    }

    /** The user stored under `email`, or `None` (Java's null) when there is none. */
    method GetUserByEmail(email: string) returns (user: Option<User>)
      ensures user.Some? <==> email in users
      ensures user.Some? ==> user.value == users[email]
      ensures Valid() && user.Some? ==> user.value.email == email
    {
      if email in users {
        user := Some(users[email]);
      } else {
        user := None;
      }
    }

    method CreateUserByEmail(user: User)
      requires Valid()
      modifies this
      ensures Valid()
      ensures users == Created(old(users), user)
    {
      users := users[user.email := user];
    }

    method UpdateUserByEmail(email: string, user: User)
      requires Valid()
      modifies this
      ensures Valid()
      ensures users == Updated(old(users), email, user)
    {
      users := users - {email};
      users := users[user.email := user];
    }

    method DeleteUserByEmail(email: string)
      requires Valid()
      modifies this
      ensures Valid()
      ensures users == Deleted(old(users), email)
    {
      users := users - {email};
    }
  }
}
