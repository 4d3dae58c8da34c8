/** Authentication against the static user table and the role check that
    guards the administrative routes. Both are pure decisions. */
module Auth {
  import opened Http

  datatype Role = Manager | Admin

  /** One row of the user table. */
  datatype Account = Account(password: string, role: Role)

  /** The username and password presented with a request. */
  datatype Credentials = Credentials(username: string, password: string)

  /** The identity an authenticated request runs as. */
  datatype User = User(username: string, role: Role)

  /** The hard-coded user table. */
  const Users: map<string, Account> :=
    map["manager" := Account("manager123", Manager),
        "admin" := Account("admin123", Admin)]

  /** Roles allowed to update a product. */
  const UpdateRoles: seq<Role> := [Manager, Admin]

  /** Roles allowed to create a product. */
  const CreateRoles: seq<Role> := [Admin]

  /** The table has a row for the username and its password is the one presented. */
  predicate Authentic(c: Credentials)
  {
    c.username in Users && Users[c.username].password == c.password
  }

  /** Resolves the credentials to a user, or fails with 401. */
  function GetCurrentUser(c: Credentials): (r: Result<User>)
    ensures r.Ok? <==> Authentic(c)
    ensures r.Err? ==> r.status == Unauthorized
    ensures r.Ok? ==> r.value.username == c.username && Users[c.username] == Account(c.password, r.value.role)
  {
    if c.username !in Users || Users[c.username].password != c.password then
      Err(Unauthorized)
    else
      Ok(User(c.username, Users[c.username].role))
  }

  /** Authenticates the credentials, then admits the user only when its role
      is one of `allowed`. A failed authentication is reported before the role
      is looked at. */
  function RequireRole(allowed: seq<Role>, c: Credentials): (r: Result<User>)
    ensures r.Ok? <==> Authentic(c) && Users[c.username].role in allowed
    ensures !Authentic(c) ==> r == Err(Unauthorized)
    ensures Authentic(c) && Users[c.username].role !in allowed ==> r == Err(Forbidden)
    ensures r.Ok? ==> r == GetCurrentUser(c)
  {
    var u := GetCurrentUser(c);
    if u.Err? then u
    else if u.value.role !in allowed then Err(Forbidden)
    else u
  }

  /** Exactly two credential pairs authenticate. */
  lemma AuthenticExactly(c: Credentials)
    ensures Authentic(c) <==>
      c == Credentials("manager", "manager123") || c == Credentials("admin", "admin123")
  {
  }

  /** Product creation admits the admin only; a manager is refused with 403. */
  lemma CreateAdmitsOnlyAdmin(c: Credentials)
    ensures RequireRole(CreateRoles, c).Ok? <==> c == Credentials("admin", "admin123")
    ensures c == Credentials("manager", "manager123") ==> RequireRole(CreateRoles, c) == Err(Forbidden)
  {
    AuthenticExactly(c);
  }

  /** Product update admits every authenticated user, manager and admin alike. */
  lemma UpdateAdmitsManagerAndAdmin(c: Credentials)
    ensures RequireRole(UpdateRoles, c).Ok? <==>
      c == Credentials("manager", "manager123") || c == Credentials("admin", "admin123")
  {
    AuthenticExactly(c);
  }
}
