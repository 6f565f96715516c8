/** The route guard of the browser app, reading the two keys the login page
    writes. */
module ProtectedRoute {
  import opened Wrappers

  const AuthKey := "cosmicwatch_isAuthenticated"
  const RoleKey := "cosmicwatch_userRole"

  /** `localStorage`, key to stored string. */
  type Storage = map<string, string>

  datatype Decision = RedirectLogin | RedirectHome | Render

  predicate IsAuthenticated(st: Storage) {
    AuthKey in st && st[AuthKey] == "true"
  }

  /** `allowedRoles`: `None` when it is not an array. */
  function Guard(st: Storage, allowedRoles: Option<seq<string>>): (d: Decision)
    ensures d == RedirectLogin <==> !IsAuthenticated(st)
    ensures d == RedirectHome <==>
              && IsAuthenticated(st) && allowedRoles.Some? && |allowedRoles.value| > 0
              && (RoleKey !in st || st[RoleKey] == "" || st[RoleKey] !in allowedRoles.value)
    ensures d == Render ==> IsAuthenticated(st)
  {
    if !IsAuthenticated(st) then RedirectLogin
    else if allowedRoles.Some? && |allowedRoles.value| > 0 then
      var roleMissing := RoleKey !in st || st[RoleKey] == "";
      if roleMissing || st[RoleKey] !in allowedRoles.value then RedirectHome else Render
    else Render
  }

  /** Without a role list every authenticated user gets the page; with one,
      exactly the listed roles do (compared exactly, letter case included). */
  lemma RenderIffAllowed(st: Storage, allowedRoles: Option<seq<string>>)
    requires IsAuthenticated(st)
    ensures (allowedRoles.None? || |allowedRoles.value| == 0) ==> Guard(st, allowedRoles) == Render
    ensures allowedRoles.Some? && |allowedRoles.value| > 0 ==>
              (Guard(st, allowedRoles) == Render <==>
                 RoleKey in st && st[RoleKey] != "" && st[RoleKey] in allowedRoles.value)
  {
  }

  /** A flag other than the exact string "true" is not a login. */
  lemma OnlyExactTrueAuthenticates(st: Storage)
    ensures Guard(st[AuthKey := "True"], Some(["scientist"])) == RedirectLogin
    ensures Guard(st[AuthKey := "true"][RoleKey := "Scientist"], Some(["scientist"])) == RedirectHome
  {
  }
}
