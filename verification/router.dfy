/** The route table and the guard that runs before every navigation: it may
    first ask the session store for the session, then allows the navigation or
    redirects it to `login` or `home`. */
module Router {
  import opened JsValues
  import opened Seqs
  import opened Backend
  import AuthStore

  /** A route record: where it lives, its name, and the flags of its `meta`
      (an absent flag is false). */
  datatype Route = Route(path: string, name: string, requiresAuth: bool, requiresAdmin: bool)

  const HomeRoute := Route("/", "home", true, false)
  const AddRoute := Route("/add", "add", true, true)
  const ItemDetailRoute := Route("/item/:id", "item-detail", true, false)
  const ScanRoute := Route("/scan", "scan", true, false)
  const EditItemRoute := Route("/edit/:id", "edit-item", true, true)
  const LoginRoute := Route("/login", "login", false, false)
  const RegisterRoute := Route("/register", "register", false, false)
  const ForgotPasswordRoute := Route("/forgot-password", "forgot-password", false, false)

  /** The application's routes, in declaration order. */
  const Routes: seq<Route> := [
    HomeRoute, AddRoute, ItemDetailRoute, ScanRoute,
    EditItemRoute, LoginRoute, RegisterRoute, ForgotPasswordRoute
  ]

  /** A navigation target: its name (absent for a path no route matches) and
      the route records it matched. */
  datatype Target = Target(name: Option<string>, matched: seq<Route>)

  /** A target whose records all come from the route table. */
  ghost predicate FromTable(to: Target)
  {
    forall r :: r in to.matched ==> r in Routes
  }

  function NameIs(name: string): Route -> bool
  {
    (r: Route) => r.name == name
  }

  /** Where `next({ name })` leads: the routes with that name. */
  function Named(name: string): Target
  {
    Target(Some(name), Filter(Routes, NameIs(name)))
  }

  datatype Decision = Allow | ToLogin | ToHome

  /** `to.matched.some(record => record.meta.requiresAuth)`: some matched
      record asks for a signed-in user. */
  function RequiresAuth(to: Target): (b: bool)
    ensures b <==> exists i :: 0 <= i < |to.matched| && to.matched[i].requiresAuth
  {
    Any(to.matched, (r: Route) => r.requiresAuth)
  }

  /** `to.matched.some(record => record.meta.requiresAdmin)`. */
  function RequiresAdmin(to: Target): (b: bool)
    ensures b <==> exists i :: 0 <= i < |to.matched| && to.matched[i].requiresAdmin
  {
    Any(to.matched, (r: Route) => r.requiresAdmin)
  }

  /** The guard's own `isAdmin`: `isAuthenticated && user.role === 'admin'`. */
  predicate GuardIsAdmin(user: Option<Object>)
    ensures GuardIsAdmin(user) ==> user.Some?
  {
    user.Some? && Get(user.value, AuthStore.RoleKey) == AuthStore.AdminRole
  }

  /** The guard and the session store agree on who is an administrator, and an
      administrator is always signed in. */
  lemma IsAdminAgrees(s: AuthStore.State)
    ensures GuardIsAdmin(s.user) <==> AuthStore.IsAdmin(s)
    ensures AuthStore.IsAdmin(s) ==> s.user.Some?
  {
  }

  /** The target is the login or the register page of the table. */
  predicate IsAuthPage(to: Target)
    ensures IsAuthPage(to) <==> to.name == Some(LoginRoute.name) || to.name == Some(RegisterRoute.name)
  {
    to.name == Some("login") || to.name == Some("register")
  }

  /** The guard's decision table, first rule first. */
  function Decide(to: Target, user: Option<Object>): (d: Decision)
    // 1. a protected route without a user: to login, whatever the other flags
    ensures RequiresAuth(to) && user.None? ==> d == ToLogin
    // 2. an admin route for someone who is not an administrator: home
    ensures !(RequiresAuth(to) && user.None?) && RequiresAdmin(to) && !GuardIsAdmin(user) ==> d == ToHome
    // 3. a signed-in user on the login or register page: home
    ensures !(RequiresAdmin(to) && !GuardIsAdmin(user)) && IsAuthPage(to) && user.Some? ==> d == ToHome
    // 4. everything else goes through
    ensures d == Allow <==>
      (!RequiresAuth(to) || user.Some?) && (!RequiresAdmin(to) || GuardIsAdmin(user)) && !(IsAuthPage(to) && user.Some?)
  {
    var isAuthenticated := user.Some?;
    var isAdmin := GuardIsAdmin(user);
    if RequiresAuth(to) && !isAuthenticated then ToLogin
    else if RequiresAdmin(to) && !isAdmin then ToHome
    else if IsAuthPage(to) && isAuthenticated then ToHome
    else Allow
  }

  /** Every route that asks for an administrator also asks for a signed-in user. */
  lemma AdminRoutesRequireAuth()
    ensures forall r :: r in Routes && r.requiresAdmin ==> r.requiresAuth
  {
  }

  /** Someone who is not signed in is sent to login, never home, for every
      target built from the table, `/add` and `/edit/:id` included. */
  lemma SignedOutNeverSentHome(to: Target)
    requires FromTable(to)
    ensures Decide(to, None) != ToHome
    ensures Decide(to, None) == ToLogin <==> RequiresAuth(to)
  {
    if RequiresAdmin(to) {
      var i :| 0 <= i < |to.matched| && to.matched[i].requiresAdmin;
      AdminRoutesRequireAuth();
      assert to.matched[i] in Routes;
    }
  }

  /** `next({ name: 'login' })` resolves to the login route record. */
  lemma LoginNamed()
    ensures Named("login") == Target(Some("login"), [LoginRoute])
  {
    assert forall j :: 0 <= j < |Routes| && Routes[j] != LoginRoute ==> !NameIs("login")(Routes[j]);
    FilterSingle(Routes, 5, NameIs("login"));
  }

  /** `next({ name: 'home' })` resolves to the home route record. */
  lemma HomeNamed()
    ensures Named("home") == Target(Some("home"), [HomeRoute])
  {
    assert forall j :: 0 <= j < |Routes| && Routes[j] != HomeRoute ==> !NameIs("home")(Routes[j]);
    FilterSingle(Routes, 0, NameIs("home"));
  }

  /** The login page lets in whoever is not signed in. */
  lemma LoginPageAllowsSignedOut(login: Target)
    requires login == Target(Some("login"), [LoginRoute])
    ensures Decide(login, None) == Allow
  {
  }

  /** The home page lets in everyone who is signed in. */
  lemma HomePageAllowsSignedIn(home: Target, user: Option<Object>)
    requires home == Target(Some("home"), [HomeRoute]) && user.Some?
    ensures Decide(home, user) == Allow
  {
  }

  /** With the same user, the page the guard redirects to is itself allowed,
      for every target built from the table. */
  lemma RedirectTargetAllowed(to: Target, user: Option<Object>)
    requires FromTable(to)
    ensures Decide(to, user) == ToLogin ==> Decide(Named("login"), user) == Allow
    ensures Decide(to, user) == ToHome ==> Decide(Named("home"), user) == Allow
  {
    if Decide(to, user) == ToLogin {
      LoginNamed();
      LoginPageAllowsSignedOut(Named("login"));
    }
    if Decide(to, user) == ToHome {
      SignedOutNeverSentHome(to);
      HomeNamed();
      HomePageAllowsSignedIn(Named("home"), user);
    }
  }

  /** The admin routes in practice: `/add` sends a signed-in non-administrator
      home and a visitor to login; `/edit/:id` lets an administrator in. */
  lemma AdminRouteScenarios(u: Object)
    requires Get(u, AuthStore.RoleKey) != AuthStore.AdminRole
    ensures Decide(Target(Some("add"), [AddRoute]), Some(u)) == ToHome
    ensures Decide(Target(Some("add"), [AddRoute]), None) == ToLogin
    ensures Decide(Target(Some("edit-item"), [EditItemRoute]), Some(u[AuthStore.RoleKey := AuthStore.AdminRole])) == Allow
  {
    var admin := u[AuthStore.RoleKey := AuthStore.AdminRole];
    assert Get(admin, AuthStore.RoleKey) == AuthStore.AdminRole;
  }

  /** `router.beforeEach`: the session is fetched only when no user is loaded,
      and the decision is taken on the user the store holds afterwards. */
  function BeforeEach(auth: AuthStore.State, to: Target, session: Reply<Option<Object>>, profile: AuthStore.ProfileReply): (out: Step<AuthStore.State, Decision>)
    ensures auth.user.Some? ==> out.state == auth
    ensures auth.user.None? ==> out.state == AuthStore.GetSession(auth, session, profile)
    ensures out.result == Decide(to, out.state.user)
  {
    var a := if auth.user.None? then AuthStore.GetSession(auth, session, profile) else auth;
    Step(a, Decide(to, a.user))
  }

  /** The first navigation from a fresh store runs the session check; when it
      finds no session, or the profile lookup rejects, a protected route leads
      to login. */
  lemma FirstNavigationChecksSession(to: Target, session: Reply<Option<Object>>, profile: AuthStore.ProfileReply)
    ensures BeforeEach(AuthStore.Initial, to, session, profile).state == AuthStore.GetSession(AuthStore.Initial, session, profile)
    ensures (session.Err? || session.data.None? || profile.Threw?) && RequiresAuth(to) ==>
      BeforeEach(AuthStore.Initial, to, session, profile).result == ToLogin
  {
  }

  /** After a sign-out, an admin route sends the visitor to login unless the
      session check finds a session again. */
  lemma SignedOutAdminRouteGoesToLogin(auth: AuthStore.State, reply: AuthStore.SignOutReply, i: nat, session: Reply<Option<Object>>, profile: AuthStore.ProfileReply)
    requires reply.Resolved?
    requires i < |Routes| && Routes[i].requiresAdmin
    requires session.Err? || session == Ok(None)
    ensures BeforeEach(AuthStore.SignOut(auth, reply), Target(Some(Routes[i].name), [Routes[i]]), session, profile).result == ToLogin
  {
    AdminRoutesRequireAuth();
    assert Routes[i] in Routes;
  }

  /** The redirected navigation runs the guard again, and with no user it asks
      for the session again. When that second check gets the same replies as
      the first, the redirect is allowed: one redirect is then enough. */
  lemma RedirectSettlesWithSameReplies(auth: AuthStore.State, to: Target, session: Reply<Option<Object>>, profile: AuthStore.ProfileReply)
    requires FromTable(to)
    ensures BeforeEach(auth, to, session, profile).result == ToLogin ==>
      BeforeEach(BeforeEach(auth, to, session, profile).state, Named("login"), session, profile).result == Allow
    ensures BeforeEach(auth, to, session, profile).result == ToHome ==>
      BeforeEach(BeforeEach(auth, to, session, profile).state, Named("home"), session, profile).result == Allow
  {
    var first := BeforeEach(auth, to, session, profile);
    RedirectTargetAllowed(to, first.state.user);
    if first.result == ToLogin {
      LoginNamed();
      assert BeforeEach(first.state, Named("login"), session, profile).state.user.None?;
    }
  }
}
