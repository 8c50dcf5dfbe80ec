/** The session store: the signed-in user, the loading flag and the last
    error, and how each authentication action changes them given what the
    backend replied. Every action ends with `loading` false; the value it
    holds while a call is outstanding is not observable between actions. */
module AuthStore {
  import opened JsValues
  import opened Backend

  datatype State = State(user: Option<Object>, loading: bool, error: Option<string>)

  /** The store as it is created: nobody signed in, no error. */
  const Initial := State(None, false, None)

  const RoleKey := "role"
  const AdminRole := Str("admin")

  /** The reply of `auth.signOut()`: it resolves (the error it may report is
      ignored by the store) or it rejects. */
  datatype SignOutReply = Resolved(reported: Option<string>) | Rejected(message: string)

  /** The reply of the `profiles` role lookup: the role it found, the error it
      returned (no profile row, say), or the message it rejected with. A
      returned error is handled inside `fetchUserProfile`; a rejection is not
      caught there and reaches the `catch` of the action that called it. */
  datatype ProfileReply = Found(role: Value) | Returned(message: string) | Threw(message: string)

  /** Joins the identity with the role from its profile row. A returned lookup
      error keeps the bare identity instead of discarding the session; a
      rejected lookup escapes as `Err`. */
  function FetchUserProfile(authUser: Option<Object>, profile: ProfileReply): (r: Reply<Option<Object>>)
    ensures authUser.None? ==> r == Ok(None)
    ensures authUser.Some? && profile.Returned? ==> r == Ok(authUser)
    ensures authUser.Some? && profile.Threw? ==> r == Err(profile.message)
    ensures authUser.Some? && profile.Found? ==>
      && r.Ok? && r.data.Some?
      && r.data.value.Keys == authUser.value.Keys + {RoleKey}
      && r.data.value[RoleKey] == profile.role
      && forall k :: k in authUser.value && k != RoleKey ==> r.data.value[k] == authUser.value[k]
  {
    match authUser
    case None => Ok(None)
    case Some(u) =>
      match profile
      case Threw(m) => Err(m)
      case Returned(_) => Ok(authUser)
      case Found(role) => Ok(Some(u[RoleKey := role]))
  }

  /** `getSession()`: the session's user joined with its profile, nobody when
      there is no session or the check fails, and nobody with the message
      recorded when the profile lookup rejects. A successful check does not
      clear an earlier error. */
  function GetSession(s: State, session: Reply<Option<Object>>, profile: ProfileReply): (t: State)
    ensures !t.loading
    ensures session.Err? ==> t.user.None? && t.error == Some(session.message)
    ensures session == Ok(None) ==> t.user.None? && t.error == s.error
    ensures session.Ok? && session.data.Some? && !profile.Threw? ==>
      && t.user.Some?
      && Ok(t.user) == FetchUserProfile(session.data, profile)
      && t.error == s.error
    ensures session.Ok? && session.data.Some? && profile.Threw? ==>
      t.user.None? && t.error == Some(profile.message)
  {
    match session
    case Err(m) => State(None, false, Some(m))
    case Ok(None) => State(None, false, s.error)
    case Ok(Some(u)) =>
      match FetchUserProfile(Some(u), profile)
      case Err(m) => State(None, false, Some(m))
      case Ok(full) => State(full, false, s.error)
  }

  /** `signIn(credentials)`: on success the profile-joined user is stored and
      returned; when the sign-in fails, or the profile lookup rejects, nothing
      is returned, the current user is kept and the error recorded. */
  function SignIn(s: State, reply: Reply<Object>, profile: ProfileReply): (out: Step<State, Option<Object>>)
    ensures !out.state.loading
    ensures reply.Ok? && !profile.Threw? ==>
      && out.result.Some?
      && out.state.user == out.result
      && Ok(out.result) == FetchUserProfile(Some(reply.data), profile)
      && out.state.error.None?
    ensures reply.Ok? && profile.Threw? ==>
      out.result.None? && out.state.user == s.user && out.state.error == Some(profile.message)
    ensures reply.Err? ==>
      out.result.None? && out.state.user == s.user && out.state.error == Some(reply.message)
  {
    match reply
    case Err(m) => Step(State(s.user, false, Some(m)), None)
    case Ok(u) =>
      match FetchUserProfile(Some(u), profile)
      case Err(m) => Step(State(s.user, false, Some(m)), None)
      case Ok(full) => Step(State(full, false, None), full)
  }

  /** `signUp(credentials)`: returns the created identity, never joined with a
      profile and never stored as the current user. */
  function SignUp(s: State, reply: Reply<Object>): (out: Step<State, Option<Object>>)
    ensures !out.state.loading
    ensures out.state.user == s.user
    ensures reply.Ok? ==> out.result == Some(reply.data) && out.state.error.None?
    ensures reply.Err? ==> out.result.None? && out.state.error == Some(reply.message)
  {
    match reply
    case Err(m) => Step(State(s.user, false, Some(m)), None)
    case Ok(u) => Step(State(s.user, false, None), Some(u))
  }

  /** `signOut()`: forgets the user whatever the backend reports, unless the
      call itself rejects. */
  function SignOut(s: State, reply: SignOutReply): (t: State)
    ensures !t.loading
    ensures reply.Resolved? ==> t.user.None? && t.error.None?
    ensures reply.Rejected? ==> t.user == s.user && t.error == Some(reply.message)
  {
    match reply
    case Resolved(_) => State(None, false, None)
    case Rejected(m) => State(s.user, false, Some(m))
  }

  /** `recoverPassword(email)`: asks for a reset e-mail; only the error changes. */
  function RecoverPassword(s: State, reply: Outcome): (t: State)
    ensures !t.loading
    ensures t.user == s.user
    ensures reply.Pass? ==> t.error.None?
    ensures reply.Fail? ==> t.error == Some(reply.message)
  {
    match reply
    case Pass => State(s.user, false, None)
    case Fail(m) => State(s.user, false, Some(m))
  }

  /** The `isAdmin` getter: `user?.role === 'admin'`. */
  predicate IsAdmin(s: State)
    ensures IsAdmin(s) ==> s.user.Some?
  {
    s.user.Some? && Get(s.user.value, RoleKey) == AdminRole
  }

  /** After a successful sign-in the administrator flag follows the profile
      role when one is found, the identity's own role when the lookup returns
      an error, and stays as it was when the lookup rejects. */
  lemma SignInAdmin(s: State, u: Object, profile: ProfileReply)
    ensures IsAdmin(SignIn(s, Ok(u), profile).state) <==>
      match profile
      case Found(role) => role == AdminRole
      case Returned(_) => Get(u, RoleKey) == AdminRole
      case Threw(_) => IsAdmin(s)
  {
  }

  /** After a sign-out that resolves nobody is an administrator, and a failed
      sign-in leaves the administrator flag as it was. */
  lemma AdminFlagAcrossSignOutAndFailedSignIn(s: State, reply: SignOutReply, message: string, profile: ProfileReply)
    ensures reply.Resolved? ==> !IsAdmin(SignOut(s, reply))
    ensures IsAdmin(SignIn(s, Err(message), profile).state) == IsAdmin(s)
  {
  }
}
