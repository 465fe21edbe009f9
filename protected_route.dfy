/** The route guard: what a protected route shows for the current auth
    state and the roles it allows. */
module ProtectedRoute {
  import opened Common
  import opened JsValue
  import opened MockAuth

  /** What the guard renders. */
  datatype Screen = Loading | Redirect(to: string) | Children

  /** `allowedRoles.includes(user.role)`. */
  predicate Allows(allowedRoles: seq<string>, role: Option<Val>)
  {
    role.Some? && role.value.Str? && role.value.s in allowedRoles
  }

  /** The guard's decision chain; `allowedRoles` defaults to the empty list. */
  function Guard(isLoading: bool, user: Option<JsObject>, allowedRoles: seq<string>): (r: Screen)
    ensures isLoading ==> r == Loading
    ensures !isLoading && user.None? ==> r == Redirect("/login")
    ensures !isLoading && user.Some? && (allowedRoles == [] || Allows(allowedRoles, Get(user.value, "role"))) ==>
      r == Children
    ensures r == Children ==> user.Some? && (allowedRoles == [] || Allows(allowedRoles, Get(user.value, "role")))
  {
    if isLoading then Loading
    else if user.None? then Redirect("/login")
    else
      var role := Get(user.value, "role");
      if |allowedRoles| > 0 && !Allows(allowedRoles, role) then
        if !Truthy(role) || StrictEq(role, Some(Str("guest"))) then Redirect("/login")
        else if StrictEq(role, Some(Str("superAdmin"))) then Redirect("/super-admin/dashboard")
        else if StrictEq(role, Some(Str("collegeAdmin"))) then Redirect("/admin/dashboard")
        else if StrictEq(role, Some(Str("trainer"))) then Redirect("/trainer/dashboard")
        else Redirect("/login")
      else Children
  }

  /** A signed-in user whose role the route does not allow is sent where
      login would send that role: its own dashboard, or the login page for a
      guest, empty or unknown role. */
  lemma DeniedGoesToOwnDashboard(user: JsObject, allowedRoles: seq<string>)
    requires allowedRoles != [] && !Allows(allowedRoles, Get(user, "role"))
    ensures Guard(false, Some(user), allowedRoles) == Redirect(RedirectPath(Get(user, "role")))
    ensures !Truthy(Get(user, "role")) || Get(user, "role") == Some(Str("guest")) ==>
      Guard(false, Some(user), allowedRoles) == Redirect("/login")
  {
  }

  /** A denied user is never shown the route and never sent back to it: the
      redirect is the login page or a dashboard of another role. */
  lemma DeniedNeverRenders(user: JsObject, allowedRoles: seq<string>)
    requires allowedRoles != [] && !Allows(allowedRoles, Get(user, "role"))
    ensures Guard(false, Some(user), allowedRoles).Redirect?
    ensures Guard(false, Some(user), allowedRoles).to in
      {"/login", "/super-admin/dashboard", "/admin/dashboard", "/trainer/dashboard"}
  {
  }
}
