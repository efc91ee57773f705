/** The authentication service (src/authentification/auth.service.ts): login,
    registration with the default role, role changes, password reset and the
    token check behind the guard. Token signing and decoding (JWT) and
    password hashing and comparison (bcrypt) are calls into libraries and
    appear here as function parameters. */
module Auth {
  import opened Common
  import opened Roles
  import opened Users

  /** Some user has this username and `matches(password, stored)` holds for
      its stored password. */
  ghost predicate Credentials(t: UserTable, username: string, password: string,
                              matches: (string, string) -> bool)
    reads t
  {
    exists id :: id in t.users && t.users[id].username == username
                 && matches(password, t.users[id].password)
  }

  /** `login`: Unauthorized for an unknown username or a password that does
      not match; otherwise a token signed over the username. */
  function Login(t: UserTable, username: string, password: string,
                 matches: (string, string) -> bool, sign: string -> string): (r: Result<string>)
    reads t
    requires t.Valid()
    ensures r.Ok? <==> Credentials(t, username, password, matches)
    ensures r.Ok? ==> r.value == sign(username)
    ensures r.Err? ==> r.error == Unauthorized
  {
    match t.UserIdByName(username)
    case None => Err(Unauthorized)
    case Some(id) =>
      if matches(password, t.users[id].password) then Ok(sign(username)) else Err(Unauthorized)
  }

  /** `if (minRoleWeight)`: an absent or zero minimum weight turns the role
      check off. */
  predicate GateOn(minRoleWeight: Option<int>)
  {
    minRoleWeight.Some? && minRoleWeight.value != 0
  }

  /** The weight check on a user's role: the user has a role and its stored
      weight is at least the minimum. */
  predicate PassesGate(t: UserTable, u: User, minRoleWeight: Option<int>)
    reads t
  {
    !GateOn(minRoleWeight)
    || (u.role.Some? && u.role.value in t.roles && minRoleWeight.value <= t.roles[u.role.value])
  }

  /** `validateToken`: the token is decoded (without verification) to a
      username; a token that does not decode leaves a null payload whose
      dereference fails; an unknown username is Unauthorized; a user without
      a role, or whose role weighs less than a non-zero `minRoleWeight`, is
      Forbidden; otherwise the user is the answer. */
  function ValidateToken(t: UserTable, token: string, minRoleWeight: Option<int>,
                         decode: string -> Option<string>): (r: Result<User>)
    reads t
    requires t.Valid()
    ensures decode(token).None? ==> r == Err(InternalError)
    ensures decode(token).Some? ==>
              ((forall id :: id in t.users ==> t.users[id].username != decode(token).value)
                 <==> r == Err(Unauthorized))
    ensures r.Ok? <==> && decode(token).Some?
                       && (exists id :: id in t.users && t.users[id].username == decode(token).value
                                        && PassesGate(t, t.users[id], minRoleWeight))
    ensures r.Ok? ==> r.value in t.users.Values && r.value.username == decode(token).value
    ensures r.Err? && r.error == Forbidden ==> GateOn(minRoleWeight)
    ensures decode(token).Some? ==>
              (r == Err(Forbidden) <==>
                 exists id :: id in t.users && t.users[id].username == decode(token).value
                              && !PassesGate(t, t.users[id], minRoleWeight))
  {
    match decode(token)
    case None => Err(InternalError)
    case Some(name) =>
      match t.UserIdByName(name)
      case None => Err(Unauthorized)
      case Some(id) =>
        var u := t.users[id];
        if GateOn(minRoleWeight) && (u.role.None? || minRoleWeight.value > t.roles[u.role.value]) then
          Err(Forbidden)
        else
          Ok(u)
  }

  /** The role rows carry the weights of the constant role table. The seed
      script does not establish this: it stores each role's string value as
      its weight. */
  ghost predicate RowsCarryTableWeights(t: UserTable)
    reads t
  {
    forall r :: r in t.roles ==> t.roles[r] == Weight(r)
  }

  /** The gate's comparison under a hypothesis the deployed code does not
      meet: if the role rows carried the role table's weights and a route's
      minimum were the weight of role `b`, the route would admit exactly the
      users whose role ranks at least as high as `b`. The routes pass role
      string values, and the seed stores string values as weights. */
  lemma GateAdmitsHigherRoles(t: UserTable, u: User, b: UserRole)
    requires t.Valid() && RowsCarryTableWeights(t)
    requires u.role.Some? ==> u.role.value in t.roles
    ensures PassesGate(t, u, Some(Weight(b))) <==> (u.role.Some? && Rank(b) <= Rank(u.role.value))
  {
    assert GateOn(Some(Weight(b))) by { TableWeights(); }
    if u.role.Some? {
      WeightsFollowRank(u.role.value, b);
    }
  }

  /** `register`: the password is hashed before anything is stored, the
      CLIENT role row must exist, and the user is created with that role;
      a taken username or email is a Conflict. */
  method Register(t: UserTable, username: string, email: string, password: string,
                  hash: string -> string, sign: string -> string)
    returns (r: Result<string>)
    requires t.Valid()
    modifies t`users, t`nextId
    ensures t.Valid()
    ensures r.Err? ==> t.users == old(t.users) && t.nextId == old(t.nextId)
    ensures Client !in t.roles ==> r == Err(InternalError)
    ensures Client in t.roles ==>
              (r == Err(Conflict) <==> old(t.UsernameTaken(username, 0) || t.EmailTaken(email, 0)))
    ensures r.Ok? <==> Client in t.roles && !old(t.UsernameTaken(username, 0) || t.EmailTaken(email, 0))
    ensures r.Ok? ==> && r.value == sign(username)
                      && t.users == old(t.users)[old(t.nextId) := User(username, email, hash(password), Some(Client), None)]
  {
    var hashed := hash(password);
    if Client !in t.roles {
      return Err(InternalError);
    }
    var created := t.CreateUser(username, email, hashed, Some(Client));
    if created.Err? {
      return Err(created.error);
    }
    r := Ok(sign(username));
  }

  /** `updateUserRole`: an unknown user or an unknown role code is a plain
      error; otherwise the user is connected to the new role. */
  method UpdateUserRole(t: UserTable, id: int, code: UserRole) returns (r: Result<()>)
    requires t.Valid()
    modifies t`users
    ensures t.Valid()
    ensures r.Err? <==> id !in old(t.users) || code !in t.roles
    ensures r.Err? ==> r.error == InternalError && t.users == old(t.users)
    ensures r.Ok? ==> t.users == old(t.users)[id := old(t.users)[id].(role := Some(code))]
  {
    if id !in t.users {
      return Err(InternalError);
    }
    if code !in t.roles {
      return Err(InternalError);
    }
    t.SetRole(id, code);
    r := Ok(());
  }

  /** `resetPassword`: a token that fails verification or names no user is
      NotFound; otherwise the user's password becomes the hash of the new
      one. `verify` gives the user id carried by a valid token. */
  method ResetPassword(t: UserTable, token: string, newPassword: string,
                       verify: string -> Option<int>, hash: string -> string)
    returns (r: Result<()>)
    requires t.Valid()
    modifies t`users
    ensures t.Valid()
    ensures r.Err? <==> verify(token).None? || verify(token).value !in old(t.users)
    ensures r.Err? ==> r.error == NotFound && t.users == old(t.users)
    ensures r.Ok? ==> var id := verify(token).value;
                      t.users == old(t.users)[id := old(t.users)[id].(password := hash(newPassword))]
  {
    var sub := verify(token);
    if sub.None? {
      return Err(NotFound);
    }
    if sub.value !in t.users {
      return Err(NotFound);
    }
    t.SetPassword(sub.value, hash(newPassword));
    r := Ok(());
  }
}
