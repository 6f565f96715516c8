/** `requireRole(role)`: the Express guard in front of role-restricted routes.
    The authenticated user is what the token middleware left in `req.user`. */
module RoleMiddleware {
  import opened Wrappers
  import opened Text

  datatype User = User(id: string, role: Option<string>)

  /** What the guard does with a request: answer it, pass it on, or throw
      (reading `toLowerCase` of an absent role), which Express turns into its
      default error reply. */
  datatype Outcome = Respond(status: int, message: string) | Next | Throws

  function DeniedMessage(role: string): string {
    "Access denied. Requires " + role + " role."
  }

  function RequireRole(role: string, user: Option<User>): (o: Outcome)
    ensures o == Respond(401, "Unauthorized") <==> user.None?
    ensures o == Throws <==> user.Some? && user.value.role.None?
    ensures o == Next <==>
              user.Some? && user.value.role.Some? && ToLower(user.value.role.value) == ToLower(role)
    ensures o == Respond(403, DeniedMessage(role)) <==>
              user.Some? && user.value.role.Some? && ToLower(user.value.role.value) != ToLower(role)
  {
    if user.None? then Respond(401, "Unauthorized")
    else if user.value.role.None? then Throws
    else if ToLower(user.value.role.value) != ToLower(role) then Respond(403, DeniedMessage(role))
    else Next
  }

  /** The comparison ignores ASCII case on both sides. */
  lemma GuardIgnoresCase(role: string, id: string, r: string)
    ensures RequireRole(role, Some(User(id, Some(ToLower(r))))) == RequireRole(role, Some(User(id, Some(r))))
    ensures RequireRole(ToLower(role), Some(User(id, Some(r)))).Next? == RequireRole(role, Some(User(id, Some(r)))).Next?
  {
    ToLowerIdempotent(r);
    ToLowerIdempotent(role);
  }
}
