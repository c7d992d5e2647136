/** The `useAuth` hook: what it derives from the session store, and where
    each of its handlers navigates. */
module UseAuth {
  import opened Wrappers
  import AuthStore

  /** The two flags components read from the hook. */
  datatype View = View(isAuthenticated: bool, isAdmin: bool)

  /** `isAuthenticated: !!token`, `isAdmin: isAdmin()`. */
  function HookView(s: AuthStore.State): View {
    View(s.token.Some? && s.token.value != "", AuthStore.IsAdmin(s))
  }

  /** The hook's flag implies the store's, but not the other way round: an
      empty token is authenticated for the store and not for the hook. */
  lemma HookStricterThanStore(s: AuthStore.State)
    ensures HookView(s).isAuthenticated ==> AuthStore.IsAuthenticated(s)
    ensures s.token == Some("") ==> AuthStore.IsAuthenticated(s) && !HookView(s).isAuthenticated
  {
  }

  /** A handler's effect: the session after it and the route it navigates to, if any. */
  datatype Handled = Handled(state: AuthStore.State, navigateTo: Option<string>)

  /** `handleLogin`: to "/" on success; on failure the rejection is swallowed,
      nothing navigates and the message stays in the store. */
  function HandleLogin<C>(s: AuthStore.State, credentials: C, o: Result<AuthStore.AuthUser, Option<string>>,
                          json: AuthStore.Json): (h: Handled)
    ensures h.state == AuthStore.Login(s, credentials, o, json).state
    ensures h.navigateTo.Some? <==> o.Success?
    ensures h.navigateTo.Some? ==> h.navigateTo.value == "/"
    ensures o.Failure? ==> h.state.error.Some? && h.state.user == s.user
  {
    var r := AuthStore.Login(s, credentials, o, json);
    if r.returned.Success? then Handled(r.state, Some("/")) else Handled(r.state, None)
  }

  /** `handleRegister`: the same shape as `handleLogin`. */
  function HandleRegister<D>(s: AuthStore.State, userData: D, o: Result<AuthStore.AuthUser, Option<string>>,
                             json: AuthStore.Json): (h: Handled)
    ensures h.state == AuthStore.Register(s, userData, o, json).state
    ensures h.navigateTo.Some? <==> o.Success?
    ensures h.navigateTo.Some? ==> h.navigateTo.value == "/"
    ensures o.Failure? ==> h.state.error.Some? && h.state.user == s.user
  {
    var r := AuthStore.Register(s, userData, o, json);
    if r.returned.Success? then Handled(r.state, Some("/")) else Handled(r.state, None)
  }

  /** `handleLogout`: always logs out, then goes to "/login". */
  function HandleLogout(s: AuthStore.State): (h: Handled)
    ensures h.navigateTo == Some("/login")
    ensures !HookView(h.state).isAuthenticated && !HookView(h.state).isAdmin
    ensures h.state == AuthStore.Logout(s)
  {
    Handled(AuthStore.Logout(s), Some("/login"))
  }
}
