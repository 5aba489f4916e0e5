/**
 * `UsersController`: the two admin-only handlers, behind the token guard and
 * `RolesGuard`.
 */
module UsersController {
  import opened Wrappers
  import opened UsersEntity
  import opened Users
  import opened RolesGuard

  /**
   * The failures a request can end in: 401, 403, and the 500 an uncaught
   * service error becomes. The framework answers that 500 with its generic
   * "Internal server error" body, so the thrown message does not reach the client.
   */
  datatype HttpError = Unauthorized | Forbidden | InternalServerError

  /** The body of a create-user request; `role` may be left out. */
  datatype CreateUserBody = CreateUserBody(username: string, password: string, role: Option<Role>)

  /** The check both handlers open with: the caller's role is "admin". */
  predicate IsAdmin(req: RequestUser) {
    req.role == Some("admin")
  }

  /** A caller whose role claim is the label of a role passes the admin check exactly when that role is `Admin`. */
  lemma IsAdminOnlyForAdmin(username: string, r: Role)
    ensures IsAdmin(RequestUser(username, Some(RoleName(r)))) <==> r == Admin
  {
    RoleNames(r, Admin);
  }

  /**
   * The guards of the controller, in order: the token guard rejects a request
   * it could not attach a user to, then `RolesGuard` forbids one it does not admit.
   */
  function Admit(user: Option<RequestUser>): (r: Result<RequestUser, HttpError>)
    ensures r.Ok? <==> CanActivate(user)
    ensures r.Ok? ==> user == Some(r.value)
    ensures user.None? ==> r == Err(Unauthorized)
    ensures user.Some? && !CanActivate(user) ==> r == Err(Forbidden)
  {
    match user
    case None => Err(Unauthorized)
    case Some(u) => if CanActivate(user) then Ok(u) else Err(Forbidden)
  }

  /** `getAll`: forbidden to any caller whose role is not "admin", without consulting the store; otherwise `findAll`. */
  function GetAll(req: RequestUser, svc: UsersService): (r: Result<seq<UserView>, HttpError>)
    reads svc
    ensures !IsAdmin(req) ==> r == Err(Forbidden)
    ensures IsAdmin(req) ==> r == Ok(svc.FindAll())
  {
    if !IsAdmin(req) then Err(Forbidden) else Ok(svc.FindAll())
  }

  /**
   * `createUser`: forbidden to any caller whose role is not "admin", leaving
   * the store unchanged; otherwise `create` with the body's fields, whose
   * error becomes a 500 and leaves the store unchanged.
   */
  method CreateUser(req: RequestUser, body: CreateUserBody, svc: UsersService) returns (r: Result<UserView, HttpError>)
    requires svc.Valid()
    modifies svc
    ensures svc.Valid()
    ensures !IsAdmin(req) ==> r == Err(Forbidden) && svc.users == old(svc.users) && svc.nextId == old(svc.nextId)
    ensures IsAdmin(req) && HasUsername(old(svc.users), body.username) ==>
              r == Err(InternalServerError) && svc.users == old(svc.users) && svc.nextId == old(svc.nextId)
    ensures IsAdmin(req) && !HasUsername(old(svc.users), body.username) ==>
              var role := body.role.GetOr(DefaultRole);
              && svc.users == old(svc.users) + [User(old(svc.nextId), body.username, svc.hash(body.password), role)]
              && svc.nextId == old(svc.nextId) + 1
              && r == Ok(UserView(old(svc.nextId), body.username, role))
  {
    if !IsAdmin(req) {
      return Err(Forbidden);
    }
    var created := svc.Create(body.username, body.password, body.role);
    match created
    case Ok(view) => r := Ok(view);
    case Err(_) => r := Err(InternalServerError);
  }

  /** GET /users end to end: the guards, then `getAll`. Only an admitted admin gets the list. */
  function HandleGetAll(user: Option<RequestUser>, svc: UsersService): (r: Result<seq<UserView>, HttpError>)
    reads svc
    ensures r.Ok? <==> CanActivate(user) && IsAdmin(user.value)
    ensures r.Ok? ==> r.value == svc.FindAll()
  {
    match Admit(user)
    case Err(e) => Err(e)
    case Ok(req) => GetAll(req, svc)
  }

  /**
   * POST /users end to end: the guards, then `createUser`. Unless an admin is
   * admitted, the store is untouched; an admitted admin's request reaches
   * `create`, which succeeds exactly when the username is free.
   */
  method HandleCreateUser(user: Option<RequestUser>, body: CreateUserBody, svc: UsersService)
    returns (r: Result<UserView, HttpError>)
    requires svc.Valid()
    modifies svc
    ensures svc.Valid()
    ensures !(CanActivate(user) && IsAdmin(user.value)) ==>
              r.Err? && svc.users == old(svc.users) && svc.nextId == old(svc.nextId)
    ensures user.None? ==> r == Err(Unauthorized)
    ensures user.Some? && !(CanActivate(user) && IsAdmin(user.value)) ==> r == Err(Forbidden)
    ensures CanActivate(user) && IsAdmin(user.value) ==>
              (r.Ok? <==> !HasUsername(old(svc.users), body.username))
    ensures CanActivate(user) && IsAdmin(user.value) && HasUsername(old(svc.users), body.username) ==>
              r == Err(InternalServerError) && svc.users == old(svc.users) && svc.nextId == old(svc.nextId)
    ensures r.Ok? ==> CanActivate(user) && IsAdmin(user.value) && svc.users == old(svc.users) + [
              User(old(svc.nextId), body.username, svc.hash(body.password), body.role.GetOr(DefaultRole))]
    ensures r.Ok? ==> svc.nextId == old(svc.nextId) + 1
  {
    var admitted := Admit(user);
    match admitted
    case Err(e) => r := Err(e);
    case Ok(req) => r := CreateUser(req, body, svc);
  }
}
