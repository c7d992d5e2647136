/** The client's session (`useAuthStore`): the signed-in user and token, kept
    in memory and in the browser's persisted key-value storage. `JSON.stringify`
    and `JSON.parse` of the user are passed in. */
module AuthStore {
  import opened Wrappers
  import opened Http

  /** The server's `AuthResponse`, kept whole as the store's `user`. */
  datatype AuthUser = AuthUser(token: string, username: string, email: string, role: string, expiresIn: int)

  /** `localStorage`. */
  type Storage = map<string, string>

  const TOKEN_KEY: string := "authToken"
  const USER_KEY: string := "user"
  const REGISTER_FAILED: string := "Registration failed"
  const LOGIN_FAILED: string := "Login failed"

  /** `JSON.stringify` / `JSON.parse` for the stored user; `parse` yields
      `None` for the text "null" (and anything else that is not a user). */
  datatype Json = Json(stringify: AuthUser -> string, parse: string -> Option<AuthUser>)

  ghost predicate RoundTrips(json: Json) {
    forall u :: json.parse(json.stringify(u)) == Some(u)
  }

  datatype State = State(
    user: Option<AuthUser>,
    token: Option<string>,
    isLoading: bool,
    error: Option<string>,
    storage: Storage)

  datatype Settled = Settled(state: State, returned: Result<AuthUser, Option<string>>)

  /** The store as created when the page loads: `user` from the stored JSON,
      `token` from the stored string, each `|| null`, so an empty stored
      token counts as none. */
  function Load(storage: Storage, json: Json): (s: State)
    ensures s.storage == storage && !s.isLoading && s.error.None?
    ensures USER_KEY !in storage ==> s.user.None?
    ensures USER_KEY in storage ==> s.user == json.parse(storage[USER_KEY])
    ensures s.token.Some? <==> TOKEN_KEY in storage && storage[TOKEN_KEY] != ""
    ensures s.token.Some? ==> s.token.value == storage[TOKEN_KEY]
  {
    var user := if USER_KEY in storage then json.parse(storage[USER_KEY]) else None;
    var token := if TOKEN_KEY in storage && storage[TOKEN_KEY] != "" then Some(storage[TOKEN_KEY]) else None;
    State(user, token, false, None, storage)
  }

  /** `isAuthenticated()`: `token !== null`. */
  predicate IsAuthenticated(s: State) {
    s.token.Some?
  }

  /** `isAdmin()`: `user?.role === "ADMIN"`. */
  predicate IsAdmin(s: State) {
    s.user.Some? && s.user.value.role == "ADMIN"
  }

  /** The shared body of `register` and `login`. */
  function SignIn(s: State, o: Result<AuthUser, Option<string>>, json: Json, fallback: string): (r: Settled)
    ensures r.returned == o && !r.state.isLoading
    ensures o.Success? ==>
      && r.state.user == Some(o.value)
      && r.state.token == Some(o.value.token)
      && r.state.storage == s.storage[TOKEN_KEY := o.value.token][USER_KEY := json.stringify(o.value)]
      && r.state.error.None?
    ensures o.Failure? ==>
      && r.state.user == s.user && r.state.token == s.token && r.state.storage == s.storage
      && r.state.error == Some(ErrorMessage(o.error, fallback))
  {
    var b := s.(isLoading := true, error := None);
    match o
    case Success(resp) =>
      var storage := b.storage[TOKEN_KEY := resp.token][USER_KEY := json.stringify(resp)];
      Settled(b.(storage := storage, user := Some(resp), token := Some(resp.token), isLoading := false), o)
    case Failure(e) =>
      Settled(b.(error := Some(ErrorMessage(e, fallback)), isLoading := false), o)
  }

  /** `register(userData)`: the data only goes to the server. */
  function Register<D>(s: State, userData: D, o: Result<AuthUser, Option<string>>, json: Json): (r: Settled)
    ensures r == SignIn(s, o, json, REGISTER_FAILED)
    ensures o.Success? ==> IsAuthenticated(r.state)
    ensures o.Failure? ==> r.state.error == Some(ErrorMessage(o.error, REGISTER_FAILED))
  {
    SignIn(s, o, json, REGISTER_FAILED)
  }

  /** `login(credentials)`. */
  function Login<C>(s: State, credentials: C, o: Result<AuthUser, Option<string>>, json: Json): (r: Settled)
    ensures r == SignIn(s, o, json, LOGIN_FAILED)
    ensures o.Success? ==> IsAuthenticated(r.state)
    ensures o.Failure? ==> r.state.error == Some(ErrorMessage(o.error, LOGIN_FAILED))
  {
    SignIn(s, o, json, LOGIN_FAILED)
  }

  /** `logout()`: clears the storage keys (`logoutUser`) and the session;
      `isLoading` is left as it is. */
  function Logout(s: State): (r: State)
    ensures r.user.None? && r.token.None? && r.error.None?
    ensures r.isLoading == s.isLoading
    ensures TOKEN_KEY !in r.storage && USER_KEY !in r.storage
    ensures forall k :: k in s.storage && k != TOKEN_KEY && k != USER_KEY ==> k in r.storage && r.storage[k] == s.storage[k]
    ensures r.storage.Keys <= s.storage.Keys
  {
    State(None, None, s.isLoading, None, s.storage - {TOKEN_KEY, USER_KEY})
  }

  /** `clearError()`. */
  function ClearError(s: State): (r: State)
    ensures r.error.None?
    ensures r.user == s.user && r.token == s.token
    ensures r.isLoading == s.isLoading && r.storage == s.storage
  {
    s.(error := None)
  }

  // ---- properties of the session ----

  /** A session survives a reload: what a successful sign-in writes to storage
      loads back as the same user and token, provided the token is not empty. */
  lemma SignInSurvivesReload(s: State, u: AuthUser, json: Json, fallback: string)
    requires RoundTrips(json)
    requires u.token != ""
    ensures var after := SignIn(s, Success(u), json, fallback).state;
      var reloaded := Load(after.storage, json);
      reloaded.user == after.user && reloaded.token == after.token
  {
  }

  /** An empty token is authenticated in memory (`"" !== null`) but is lost
      on reload (`"" || null`). */
  lemma EmptyTokenLostOnReload(s: State, u: AuthUser, json: Json)
    requires u.token == ""
    ensures IsAuthenticated(Login(s, (), Success(u), json).state)
    ensures !IsAuthenticated(Load(Login(s, (), Success(u), json).state.storage, json))
  {
  }

  /** Logging out twice is logging out once, and a reload afterwards is anonymous. */
  lemma LogoutIdempotentAndPersistent(s: State, json: Json)
    ensures Logout(Logout(s)) == Logout(s)
    ensures var reloaded := Load(Logout(s).storage, json);
      !IsAuthenticated(reloaded) && !IsAdmin(reloaded)
  {
  }

  /** A failed login leaves an anonymous session anonymous and not admin,
      with the server's message (or the fallback) recorded. */
  lemma FailedLoginStaysAnonymous(s: State, e: Option<string>, json: Json)
    requires !IsAuthenticated(s) && s.user.None?
    ensures var r := Login(s, (), Failure(e), json).state;
      !IsAuthenticated(r) && !IsAdmin(r) && r.storage == s.storage && r.error == Some(ErrorMessage(e, LOGIN_FAILED))
  {
  }
}
