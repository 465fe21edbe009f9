/** The local-storage authentication service: the login decision chain over
    the user store, the signed-in user kept in storage, role checks and the
    role → dashboard table. */
module MockAuth {
  import opened Common
  import opened JsValue
  import opened DataService

  /** What login returns when it does not throw. */
  datatype LoginOutcome = Success(user: JsObject) | Failure(error: string)

  /** The argument of hasRole: one role or an array of roles. */
  datatype RoleArg = One(role: Option<Val>) | Many(roles: seq<Option<Val>>)

  /** The decision chain of login, given the result of the case-insensitive
      email lookup: not found, then wrong password, then inactive; on success
      the user without its password.  A lookup that throws propagates. */
  function LoginDecision(lookup: Result<Option<JsObject>>, password: string): (r: Result<LoginOutcome>)
    ensures r.Err? <==> lookup.Err?
    ensures r == Ok(Failure("User not found")) <==> lookup == Ok(None)
    ensures r == Ok(Failure("Invalid password")) <==>
      lookup.Ok? && lookup.value.Some? && !StrictEq(Get(lookup.value.value, "password"), Some(Str(password)))
    ensures r == Ok(Failure("Account is deactivated")) <==>
      lookup.Ok? && lookup.value.Some? && StrictEq(Get(lookup.value.value, "password"), Some(Str(password)))
      && !Truthy(Get(lookup.value.value, "isActive"))
    ensures r.Ok? && r.value.Success? <==>
      lookup.Ok? && lookup.value.Some? && StrictEq(Get(lookup.value.value, "password"), Some(Str(password)))
      && Truthy(Get(lookup.value.value, "isActive"))
    ensures r.Ok? && r.value.Success? ==>
      "password" !in r.value.user && r.value.user == lookup.value.value - {"password"}
  {
    match lookup
    case Err(e) => Err(e)
    case Ok(None) => Ok(Failure("User not found"))
    case Ok(Some(user)) =>
      if !StrictEq(Get(user, "password"), Some(Str(password))) then Ok(Failure("Invalid password"))
      else if !Truthy(Get(user, "isActive")) then Ok(Failure("Account is deactivated"))
      else Ok(Success(user - {"password"}))
  }

  /** getRedirectPath: each known role to its dashboard, anything else to
      the login page. */
  function RedirectPath(role: Option<Val>): (r: string)
    ensures role == Some(Str("superAdmin")) ==> r == "/super-admin/dashboard"
    ensures role == Some(Str("collegeAdmin")) ==> r == "/admin/dashboard"
    ensures role == Some(Str("trainer")) ==> r == "/trainer/dashboard"
    ensures role !in {Some(Str("superAdmin")), Some(Str("collegeAdmin")), Some(Str("trainer"))} ==> r == "/login"
  {
    if StrictEq(role, Some(Str("superAdmin"))) then "/super-admin/dashboard"
    else if StrictEq(role, Some(Str("collegeAdmin"))) then "/admin/dashboard"
    else if StrictEq(role, Some(Str("trainer"))) then "/trainer/dashboard"
    else "/login"
  }

  /** Only the three known roles reach a dashboard, and no two share one. */
  lemma RedirectPathsDistinct(a: Option<Val>, b: Option<Val>)
    requires RedirectPath(a) != "/login" && RedirectPath(b) != "/login"
    ensures RedirectPath(a) == RedirectPath(b) <==> a == b
  {
  }

  /** The signed-in user as kept in storage. */
  class AuthSession {
    var current: Option<JsObject>

    constructor ()
      ensures current == None
    {
      current := None;
    }

    /** login: the outcome follows the decision chain; only a success stores
        the user (without password), any other outcome leaves storage alone. */
    method Login(store: LocalStore, email: string, password: string) returns (r: Result<LoginOutcome>)
      modifies this
      ensures r == LoginDecision(store.UserByEmail(email), password)
      ensures r.Ok? && r.value.Success? ==> current == Some(r.value.user)
      ensures !(r.Ok? && r.value.Success?) ==> current == old(current)
    {
      r := LoginDecision(store.UserByEmail(email), password);
      if r.Ok? && r.value.Success? {
        current := Some(r.value.user);
      }
    }

    /** logout. */
    method Logout()
      modifies this
      ensures current == None && !IsAuthenticated()
    {
      current := None;
    }

    /** isAuthenticated. */
    predicate IsAuthenticated()
      reads this
    {
      current.Some?
    }

    /** getUserRole: the user's role when truthy, otherwise null. */
    function UserRole(): (r: Option<Val>)
      reads this
      ensures current.None? ==> r == Some(Null)
      ensures current.Some? && Truthy(Get(current.value, "role")) ==> r == Get(current.value, "role")
      ensures !Truthy(r) ==> r == Some(Null)
    {
      if current.Some? && Truthy(Get(current.value, "role")) then Get(current.value, "role") else Some(Null)
    }

    /** hasRole: false when signed out; membership for an array, identity
        for a single role. */
    predicate HasRole(arg: RoleArg)
      reads this
    {
      current.Some? &&
      match arg
      case One(role) => StrictEq(Get(current.value, "role"), role)
      case Many(roles) => exists i :: 0 <= i < |roles| && StrictEq(Get(current.value, "role"), roles[i])
    }

    /** updateCurrentUser: nothing when signed out, otherwise the shallow
        merge is stored and returned. */
    method UpdateCurrentUser(updates: JsObject) returns (r: Option<JsObject>)
      modifies this
      ensures old(current).None? ==> r.None? && current == old(current)
      ensures old(current).Some? ==> r == Some(Spread(old(current).value, updates)) && current == r
    {
      if current.None? {
        return None;
      }
      r := Some(Spread(current.value, updates));
      current := r;
    }
  }

  /** A signed-out session has no role, and a one-element array asks the
      same as the single role. */
  lemma HasRoleFacts(s: AuthSession, role: Option<Val>)
    ensures !s.IsAuthenticated() ==> !s.HasRole(One(role)) && !s.HasRole(Many([role]))
    ensures s.HasRole(Many([role])) <==> s.HasRole(One(role))
  {
    if s.HasRole(Many([role])) {
      var i :| 0 <= i < |[role]| && StrictEq(Get(s.current.value, "role"), [role][i]);
    }
    if s.HasRole(One(role)) {
      assert StrictEq(Get(s.current.value, "role"), [role][0]);
    }
  }

  /** An email whose lookup finds nothing never signs in, and a successful
      login signs in a user whose stored email matches ignoring case. */
  lemma LoginFindsByEmail(store: LocalStore, email: string, password: string)
    ensures LoginDecision(store.UserByEmail(email), password).Ok? &&
            LoginDecision(store.UserByEmail(email), password).value.Success? ==>
      exists u :: u in store.users && LowerField(u, "email") == Ok(ToLower(email))
              && LoginDecision(store.UserByEmail(email), password).value.user == u - {"password"}
  {
    var lookup := store.UserByEmail(email);
    if LoginDecision(lookup, password).Ok? && LoginDecision(lookup, password).value.Success? {
      var u := lookup.value.value;
      assert u in store.users && LowerField(u, "email") == Ok(ToLower(email));
    }
  }
}
