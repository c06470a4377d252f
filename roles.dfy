/** `roles.guard.ts`: the guard that admits a request when the signed-in
    user's role is one of the roles the route requires. */
module Roles {
  import opened Wrappers

  /** The authenticated principal on the request; only its role matters here. */
  datatype User = User(id: int, role: string)

  /** `reflector.getAllAndOverride(ROLES_KEY, [handler, class])`: the first
      of the two that carries role metadata, the handler's taking precedence. */
  function RequiredRoles(handlerRoles: Option<seq<string>>, classRoles: Option<seq<string>>): (r: Option<seq<string>>)
    ensures handlerRoles.Some? ==> r == handlerRoles
    ensures handlerRoles.None? ==> r == classRoles
  {
    if handlerRoles.Some? then handlerRoles else classRoles
  }

  /** `requiredRoles.some((role) => user.role === role)`, scanned left to right. */
  function AnyRole(userRole: string, requiredRoles: seq<string>): (r: bool)
    ensures r <==> userRole in requiredRoles
  {
    if requiredRoles == [] then false
    else requiredRoles[0] == userRole || AnyRole(userRole, requiredRoles[1..])
  }

  /** `canActivate`: no metadata admits everyone; otherwise a user must be on
      the request and hold one of the listed roles. */
  function CanActivate(handlerRoles: Option<seq<string>>, classRoles: Option<seq<string>>, user: Option<User>): bool
  {
    var requiredRoles := RequiredRoles(handlerRoles, classRoles);
    if requiredRoles.None? then true
    else if user.None? then false
    else AnyRole(user.value.role, requiredRoles.value)
  }

  /** The guard's decision table. An empty role list is present metadata, so
      it admits nobody, not everybody. */
  lemma CanActivateSpec(handlerRoles: Option<seq<string>>, classRoles: Option<seq<string>>, user: Option<User>)
    ensures handlerRoles.None? && classRoles.None? ==> CanActivate(handlerRoles, classRoles, user)
    ensures CanActivate(handlerRoles, classRoles, user) <==>
      RequiredRoles(handlerRoles, classRoles).None?
      || (user.Some? && user.value.role in RequiredRoles(handlerRoles, classRoles).value)
    ensures RequiredRoles(handlerRoles, classRoles) == Some([]) ==> !CanActivate(handlerRoles, classRoles, user)
    ensures RequiredRoles(handlerRoles, classRoles).Some? && user.None? ==> !CanActivate(handlerRoles, classRoles, user)
  {
  }

  /** Roles on the handler replace those on the controller: an `admin`-only
      handler refuses a `user` even when the controller admits `user`. */
  lemma HandlerOverridesClass(u: User)
    requires u.role == "user"
    ensures !CanActivate(Some(["admin"]), Some(["user", "admin"]), Some(u))
    ensures CanActivate(None, Some(["user", "admin"]), Some(u))
  {
  }
}
