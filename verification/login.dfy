/** The login page's submit and guest handlers: validation order, the error
    messages and the two keys a successful login writes. */
module Login {
  import opened Wrappers
  import opened Text
  import ProtectedRoute

  const RoleRequired := "Select a mission role to proceed."
  const CredentialsRequired := "Enter your email and password to initiate access."
  const GuestRole := "enthusiast"

  /** The page's state that the handlers touch. */
  datatype Page = Page(role: Option<string>, email: string, password: string, error: string)

  /** A handler's effect: the error shown, and the keys written if it logs in
      (`completeLogin`, which then navigates to /home). */
  datatype Effect = Effect(error: string, storage: ProtectedRoute.Storage, loggedIn: bool)

  function CompleteLogin(st: ProtectedRoute.Storage, role: string): (st': ProtectedRoute.Storage)
    ensures ProtectedRoute.IsAuthenticated(st')
    ensures ProtectedRoute.RoleKey in st' && st'[ProtectedRoute.RoleKey] == role
    ensures forall k :: k in st && k != ProtectedRoute.AuthKey && k != ProtectedRoute.RoleKey ==> k in st' && st'[k] == st[k]
  {
    st[ProtectedRoute.AuthKey := "true"][ProtectedRoute.RoleKey := role]
  }

  /** A role counts as chosen when present and non-empty (`!role`). */
  predicate RoleChosen(role: Option<string>) {
    role.Some? && role.value != ""
  }

  /** `onSubmit`: clear the error; no role, then blank credentials, refuse
      with their messages; otherwise log in with the chosen role. */
  function Submit(p: Page, st: ProtectedRoute.Storage): (e: Effect)
    ensures !RoleChosen(p.role) ==> e == Effect(RoleRequired, st, false)
    ensures RoleChosen(p.role) && (Trim(p.email) == "" || Trim(p.password) == "") ==>
              e == Effect(CredentialsRequired, st, false)
    ensures e.loggedIn <==> RoleChosen(p.role) && Trim(p.email) != "" && Trim(p.password) != ""
    ensures e.loggedIn ==> e.error == "" && e.storage == CompleteLogin(st, p.role.value)
  {
    if !RoleChosen(p.role) then Effect(RoleRequired, st, false)
    else if Trim(p.email) == "" || Trim(p.password) == "" then Effect(CredentialsRequired, st, false)
    else Effect("", CompleteLogin(st, p.role.value), true)
  }

  /** Credentials made only of white space are refused like empty ones, and
      the role message wins when both are missing. */
  lemma BlankCredentialsRefused(p: Page, st: ProtectedRoute.Storage)
    requires AllSpace(p.email)
    ensures !Submit(p, st).loggedIn
    ensures !RoleChosen(p.role) ==> Submit(p, st).error == RoleRequired
  {
    TrimEmptyIffAllSpace(p.email);
  }

  /** `onGuest`: no validation, role "enthusiast". */
  function Guest(st: ProtectedRoute.Storage): (e: Effect)
    ensures e.loggedIn && e.error == ""
    ensures e.storage == CompleteLogin(st, GuestRole)
  {
    Effect("", CompleteLogin(st, GuestRole), true)
  }

  /** After any login the route guard lets the user through a page without a
      role list, and through a role list exactly when it names the role. */
  lemma LoginOpensGuard(p: Page, st: ProtectedRoute.Storage, allowed: seq<string>)
    requires Submit(p, st).loggedIn
    ensures ProtectedRoute.Guard(Submit(p, st).storage, None) == ProtectedRoute.Render
    ensures |allowed| > 0 ==>
              ((ProtectedRoute.Guard(Submit(p, st).storage, Some(allowed)) == ProtectedRoute.Render) <==>
                 (p.role.value in allowed))
  {
  }
}
