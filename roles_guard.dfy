/**
 * `RolesGuard`: admits a request when it carries a user with a role. The
 * user is what the token guard put on the request: its username and role
 * claims, the role being any string or missing.
 */
module RolesGuard {
  import opened Wrappers
  import opened UsersEntity

  /** `request.user` as the token guard leaves it. */
  datatype RequestUser = RequestUser(username: string, role: Option<string>)

  /**
   * `canActivate`: `user && user.role` is truthy, that is, a user is present
   * and its role is a non-empty string. A request without a user, or whose
   * user has no role claim, is never admitted.
   */
  predicate CanActivate(user: Option<RequestUser>)
    ensures CanActivate(user) ==> user.Some? && user.value.role.Some?
  {
    user.Some? && user.value.role.Some? && user.value.role.value != ""
  }

  /** Admin and viewer alike pass the guard: it does not tell roles apart. */
  lemma CanActivateAnyRole(username: string, r: Role)
    ensures CanActivate(Some(RequestUser(username, Some(RoleName(r)))))
  {
  }
}
