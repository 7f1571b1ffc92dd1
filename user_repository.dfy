/**
 * The in-memory user store. The `UserRepository` interface has this one
 * implementation; the view model is bound to it directly.
 */
module Repository {
  import opened Model
  import Lists

  /**
   * `UserRepositoryImpl`: a private mutable list, changed in place. Every
   * operation hands back the whole list as it is after the operation.
   */
  class UserRepositoryImpl {
    var users: seq<User>

    constructor ()
      ensures users == []
    {
      users := [];
    }

    /** `getUsers`: the stored list; nothing changes. */
    method GetUsers() returns (r: seq<User>)
      ensures r == users
    {
      r := users;
    }

    /** `addUser`: append at the end; what was there stays in place. */
    method AddUser(user: User) returns (r: seq<User>)
      modifies this
      ensures users == old(users) + [user]
      ensures users[..|old(users)|] == old(users) && users[|old(users)|] == user
      ensures r == users
    {
      users := users + [user];
      r := users;
    }

    /** `deleteUser`: remove the first element equal to `user`, if there is one. */
    method DeleteUser(user: User) returns (r: seq<User>)
      modifies this
      ensures users == Lists.RemoveFirst(old(users), user)
      ensures user in old(users) ==> |users| == |old(users)| - 1
      ensures user !in old(users) ==> users == old(users)
      ensures r == users
    {
      if user !in users {
        Lists.RemoveFirstAbsent(users, user);
      }
      users := Lists.RemoveFirst(users, user);
      r := users;
    }

    /** `clearUsers`: empty the list, whatever it held; a second call finds it empty already. */
    method ClearUsers() returns (r: seq<User>)
      modifies this
      ensures users == []
      ensures r == users
    {
      users := [];
      r := users;
    }
  }
}
