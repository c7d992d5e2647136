/** `UserService`: registration with username and email uniqueness, and
    login. Users are stored by username; the password encoder is passed in
    as a pair of functions, since its hashing is not part of the model. */
module UserService {
  import opened Wrappers
  import opened Exceptions

  datatype Role = USER | ADMIN

  datatype User = User(username: string, email: string, password: string, role: Role)

  /** The `users` table, by username. */
  type Users = map<string, User>

  datatype RegistrationRequest = RegistrationRequest(username: string, email: string, password: string)

  /** `PasswordEncoder.encode` and `PasswordEncoder.matches(raw, encoded)`. */
  datatype PasswordEncoder = PasswordEncoder(encode: string -> string, matches: (string, string) -> bool)

  const USERNAME_EXISTS: string := "Username already exists"
  const EMAIL_EXISTS: string := "Email already exists"
  const INVALID_LOGIN: string := "Invalid username or password"
  const USER_NOT_FOUND: string := "User not found"

  /** Each user is stored under its own username and no two share an email:
      the two unique columns of the table. */
  predicate Consistent(us: Users) {
    && (forall n :: n in us ==> us[n].username == n)
    && (forall a, b :: a in us && b in us && a != b ==> us[a].email != us[b].email)
  }

  predicate EmailTaken(us: Users, email: string) {
    exists n :: n in us && us[n].email == email
  }

  datatype Registered = Registered(users: Users, result: Result<User, Exception>)

  /** `registerUser`: the username check comes first, then the email check;
      a new user always gets role USER and the encoded password. */
  function RegisterUser(us: Users, req: RegistrationRequest, enc: PasswordEncoder): (r: Registered)
    ensures req.username in us ==> r == Registered(us, Failure(UserAlreadyExists(USERNAME_EXISTS)))
    ensures req.username !in us && EmailTaken(us, req.email) ==>
      r == Registered(us, Failure(UserAlreadyExists(EMAIL_EXISTS)))
    ensures r.result.Success? <==> req.username !in us && !EmailTaken(us, req.email)
    ensures r.result.Success? ==>
      && r.result.value == User(req.username, req.email, enc.encode(req.password), USER)
      && r.users == us[req.username := r.result.value]
    ensures Consistent(us) ==> Consistent(r.users)
  {
    if req.username in us then Registered(us, Failure(UserAlreadyExists(USERNAME_EXISTS)))
    else if EmailTaken(us, req.email) then Registered(us, Failure(UserAlreadyExists(EMAIL_EXISTS)))
    else
      var u := User(req.username, req.email, enc.encode(req.password), USER);
      Registered(us[req.username := u], Success(u))
  }

  /** `authenticateUser`: an unknown name and a wrong password fail alike. */
  function AuthenticateUser(us: Users, username: string, password: string, enc: PasswordEncoder): (r: Result<User, Exception>)
    ensures r.Success? <==> username in us && enc.matches(password, us[username].password)
    ensures r.Success? ==> r.value == us[username]
    ensures r.Failure? ==> r.error == InvalidCredentials(INVALID_LOGIN)
  {
    if username !in us then Failure(InvalidCredentials(INVALID_LOGIN))
    else if !enc.matches(password, us[username].password) then Failure(InvalidCredentials(INVALID_LOGIN))
    else Success(us[username])
  }

  function GetUserByUsername(us: Users, username: string): (r: Result<User, Exception>)
    ensures r.Success? <==> username in us
    ensures r.Success? ==> r.value == us[username]
    ensures r.Failure? ==> r.error == InvalidCredentials(USER_NOT_FOUND)
  {
    if username in us then Success(us[username]) else Failure(InvalidCredentials(USER_NOT_FOUND))
  }

  /** Registration never creates an administrator: the number of ADMIN
      accounts is the same before and after. */
  lemma RegistrationNeverGrantsAdmin(us: Users, req: RegistrationRequest, enc: PasswordEncoder, n: string)
    ensures var r := RegisterUser(us, req, enc);
      n in r.users && r.users[n].role == ADMIN <==> n in us && us[n].role == ADMIN
  {
  }

  /** A user who has just registered can log in with the same password, as
      long as the encoder's `matches` accepts what `encode` produced. */
  lemma RegisterThenAuthenticate(us: Users, req: RegistrationRequest, enc: PasswordEncoder)
    requires enc.matches(req.password, enc.encode(req.password))
    requires RegisterUser(us, req, enc).result.Success?
    ensures var r := RegisterUser(us, req, enc);
      AuthenticateUser(r.users, req.username, req.password, enc) == Success(r.result.value)
  {
  }

  /** When both the username and the email clash, the username message wins. */
  lemma UsernameClashReportedFirst(us: Users, req: RegistrationRequest, enc: PasswordEncoder)
    requires req.username in us && EmailTaken(us, req.email)
    ensures RegisterUser(us, req, enc).result == Failure(UserAlreadyExists(USERNAME_EXISTS))
  {
  }
}
