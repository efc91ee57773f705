/** The user table and the operations of the users service
    (src/users/users.service.ts). The database declares `username` and
    `email` unique (they are looked up with `findUnique`), so the table keeps
    both unique; every user's role refers to a row of the role table. */
module Users {
  import opened Common
  import opened Roles

  datatype User = User(
    username: string,
    email: string,
    password: string,
    role: Option<UserRole>,
    imageUrl: Option<string>)

  /** The fields `updateUser` may overwrite; absent fields are left alone. */
  datatype UserPatch = UserPatch(
    username: Option<string>,
    password: Option<string>,
    email: Option<string>)

  function Patched(u: User, p: UserPatch): User
  {
    u.(username := if p.username.Some? then p.username.value else u.username,
       password := if p.password.Some? then p.password.value else u.password,
       email := if p.email.Some? then p.email.value else u.email)
  }

  class UserTable {
    var users: map<int, User>
    /** The role rows: each role code that exists, with its stored weight. */
    var roles: map<UserRole, int>
    var nextId: int

    ghost predicate Valid()
      reads this
    {
      && 1 <= nextId
      && (forall id :: id in users ==> 1 <= id < nextId)
      && (forall a, b :: a in users && b in users && users[a].username == users[b].username ==> a == b)
      && (forall a, b :: a in users && b in users && users[a].email == users[b].email ==> a == b)
      && (forall id :: id in users && users[id].role.Some? ==> users[id].role.value in roles)
    }

    constructor (roleRows: map<UserRole, int>)
      ensures Valid()
      ensures users == map[] && roles == roleRows && nextId == 1
    {
      users := map[];
      roles := roleRows;
      nextId := 1;
    }

    /** Some user other than `except` already has this username. */
    predicate UsernameTaken(name: string, except: int)
      reads this
    {
      exists id :: id in users && id != except && users[id].username == name
    }

    predicate EmailTaken(email: string, except: int)
      reads this
    {
      exists id :: id in users && id != except && users[id].email == email
    }

    /** `findUnique({ where: { username } })`: the one user with this name. */
    function UserIdByName(name: string): (r: Option<int>)
      reads this
      requires Valid()
      ensures r.Some? ==> r.value in users && users[r.value].username == name
      ensures r.None? ==> forall id :: id in users ==> users[id].username != name
    {
      if exists id :: id in users && users[id].username == name then
        var id :| id in users && users[id].username == name; Some(id)
      else
        None
    }

    /** `getUserProfil`: the user, or NotFound. */
    function GetUserProfil(id: int): (r: Result<User>)
      reads this
      ensures r.Ok? <==> id in users
      ensures r.Ok? ==> r.value == users[id]
      ensures r.Err? ==> r.error == NotFound
    {
      if id in users then Ok(users[id]) else Err(NotFound)
    }

    /** `createUser`: Conflict when another user has the same username or the
        same email; otherwise the user is added under a fresh id. Connecting
        a role that has no row fails in the database. */
    method CreateUser(username: string, email: string, password: string, role: Option<UserRole>)
      returns (r: Result<int>)
      requires Valid()
      modifies this`users, this`nextId
      ensures Valid()
      ensures r.Err? ==> users == old(users) && nextId == old(nextId)
      ensures old(UsernameTaken(username, 0) || EmailTaken(email, 0)) <==> r == Err(Conflict)
      ensures r.Err? && r.error != Conflict ==> r.error == InternalError && role.Some? && role.value !in roles
      ensures r.Ok? ==> && r.value == old(nextId) && r.value !in old(users)
                        && users == old(users)[r.value := User(username, email, password, role, None)]
                        && nextId == old(nextId) + 1
    {
      if UsernameTaken(username, 0) || EmailTaken(email, 0) {
        return Err(Conflict);
      }
      if role.Some? && role.value !in roles {
        return Err(InternalError);
      }
      r := Ok(nextId);
      users := users[nextId := User(username, email, password, role, None)];
      nextId := nextId + 1;
    }

    /** `updateUser` (and the identical `updateUserProfile`): NotFound for an
        unknown id; a new username or email that another user holds violates
        the unique constraint; otherwise only the given fields change. */
    method UpdateUser(id: int, patch: UserPatch) returns (r: Result<User>)
      requires Valid()
      modifies this`users
      ensures Valid()
      ensures r.Err? ==> users == old(users)
      ensures (id !in old(users)) <==> r == Err(NotFound)
      ensures id in old(users) ==>
                (r.Err? <==> ((patch.username.Some? && old(UsernameTaken(patch.username.value, id)))
                              || (patch.email.Some? && old(EmailTaken(patch.email.value, id)))))
      ensures r.Err? && id in old(users) ==> r.error == InternalError
      ensures r.Ok? ==> && r.value == Patched(old(users)[id], patch)
                        && users == old(users)[id := r.value]
    {
      if id !in users {
        return Err(NotFound);
      }
      if (patch.username.Some? && UsernameTaken(patch.username.value, id))
         || (patch.email.Some? && EmailTaken(patch.email.value, id)) {
        return Err(InternalError);
      }
      var u := Patched(users[id], patch);
      users := users[id := u];
      r := Ok(u);
    }

    /** `deleteUser`: NotFound for an unknown id, otherwise the user is
        removed and the answer is true. */
    method DeleteUser(id: int) returns (r: Result<bool>)
      requires Valid()
      modifies this`users
      ensures Valid()
      ensures id !in old(users) <==> r == Err(NotFound)
      ensures id in old(users) ==> r.Ok?
      ensures r.Err? ==> users == old(users)
      ensures r.Ok? ==> r.value && users == old(users) - {id}
    {
      if id !in users {
        return Err(NotFound);
      }
      users := users - {id};
      r := Ok(true);
    }

    /** `changePassword`: NotFound for an unknown user, Unauthorized when
        `matches(current, stored)` (bcrypt.compare) fails; only on success is
        the stored password replaced, by `hash(newPassword)`. */
    method ChangePassword(id: int, current: string, newPassword: string,
                          matches: (string, string) -> bool, hash: string -> string)
      returns (r: Result<bool>)
      requires Valid()
      modifies this`users
      ensures Valid()
      ensures id !in old(users) <==> r == Err(NotFound)
      ensures id in old(users) ==>
                (r == Err(Unauthorized) <==> !matches(current, old(users)[id].password))
      ensures r.Ok? <==> id in old(users) && matches(current, old(users)[id].password)
      ensures r.Err? ==> users == old(users)
      ensures r.Ok? ==> && r.value
                        && users == old(users)[id := old(users)[id].(password := hash(newPassword))]
    {
      if id !in users {
        return Err(NotFound);
      }
      if !matches(current, users[id].password) {
        return Err(Unauthorized);
      }
      users := users[id := users[id].(password := hash(newPassword))];
      r := Ok(true);
    }

    /** `uploadImage`: sets the image URL of an existing user. */
    method UploadImage(id: int, url: string) returns (r: Result<()>)
      requires Valid()
      modifies this`users
      ensures Valid()
      ensures id !in old(users) <==> r == Err(NotFound)
      ensures id in old(users) ==> r.Ok?
      ensures r.Err? ==> users == old(users)
      ensures r.Ok? ==> users == old(users)[id := old(users)[id].(imageUrl := Some(url))]
    {
      if id !in users {
        return Err(NotFound);
      }
      users := users[id := users[id].(imageUrl := Some(url))];
      r := Ok(());
    }

    /** `deleteImage`: clears the image URL of an existing user. */
    method DeleteImage(id: int) returns (r: Result<()>)
      requires Valid()
      modifies this`users
      ensures Valid()
      ensures id !in old(users) <==> r == Err(NotFound)
      ensures id in old(users) ==> r.Ok?
      ensures r.Err? ==> users == old(users)
      ensures r.Ok? ==> users == old(users)[id := old(users)[id].(imageUrl := None)]
    {
      if id !in users {
        return Err(NotFound);
      }
      users := users[id := users[id].(imageUrl := None)];
      r := Ok(());
    }

    /** Writes a user's role; `updateUserRole` in the authentication service
        checks both the user and the role row before calling it. */
    method SetRole(id: int, role: UserRole)
      requires Valid() && id in users && role in roles
      modifies this`users
      ensures Valid()
      ensures users == old(users)[id := old(users)[id].(role := Some(role))]
    {
      users := users[id := users[id].(role := Some(role))];
    }

    /** Writes a user's password hash; used by the password reset. */
    method SetPassword(id: int, hashed: string)
      requires Valid() && id in users
      modifies this`users
      ensures Valid()
      ensures users == old(users)[id := old(users)[id].(password := hashed)]
    {
      users := users[id := users[id].(password := hashed)];
    }
  }
}
