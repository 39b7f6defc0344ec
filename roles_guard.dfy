/** RolesGuard.canActivate: the role check in front of role-restricted
    routes. It either grants access or raises; it never answers false. */
module RolesGuard {
  import opened Wrappers
  import opened Accounts

  /** The authenticated user on the request; `role` is None when the
      request carries no role. */
  datatype RequestUser = RequestUser(id: UserId, role: Option<Role>)

  const RoleNotFound := "User role not found"

  function MissingPermission(role: Role): string {
    "User role " + RoleName(role) + " does not have required permissions"
  }

  /** `roles.some(r => r === role)`, scanning from the front. */
  function AnyIs(roles: seq<Role>, role: Role): (b: bool)
    ensures b <==> role in roles
  {
    if |roles| == 0 then false
    else roles[0] == role || AnyIs(roles[1..], role)
  }

  /** Roles are required when the metadata holds a non-empty list. */
  predicate RolesRequired(requiredRoles: Option<seq<Role>>) {
    requiredRoles.Some? && |requiredRoles.value| > 0
  }

  function CanActivate(requiredRoles: Option<seq<Role>>, user: Option<RequestUser>): (r: Result<bool, HttpError>)
    ensures r.Ok? ==> r.value
    ensures !RolesRequired(requiredRoles) ==> r == Ok(true)
    ensures RolesRequired(requiredRoles) && (user.None? || user.value.role.None?) ==>
      r == Err(Unauthorized(RoleNotFound))
    ensures r.Ok? <==>
      !RolesRequired(requiredRoles)
      || (user.Some? && user.value.role.Some? && user.value.role.value in requiredRoles.value)
    ensures RolesRequired(requiredRoles) && user.Some? && user.value.role.Some?
            && user.value.role.value !in requiredRoles.value ==>
      r == Err(Forbidden(MissingPermission(user.value.role.value)))
  {
    if !RolesRequired(requiredRoles) then Ok(true)
    else if user.None? || user.value.role.None? then Err(Unauthorized(RoleNotFound))
    else if !AnyIs(requiredRoles.value, user.value.role.value) then
      Err(Forbidden(MissingPermission(user.value.role.value)))
    else Ok(true)
  }
}
