/**
 * `POST /api/auth/login`: both fields must be non-empty; the user is looked
 * up by username and the password compared with the stored bcrypt hash only
 * when the user exists; an unknown user and a wrong password get the same
 * 401 answer. On success a 24-hour token carrying the user's id, username
 * and role is set as the `auth-token` cookie, and the body names the same
 * three fields.
 *
 * bcrypt's `compare` and the JWT `sign` are parameters, as is whether the
 * server runs in production (the cookie's `secure` flag). The user table is
 * None when the lookup fails.
 */
module LoginRoute {
  import opened JsText
  import UsersApi

  /** The JSON body; a missing field is None. */
  datatype LoginBody = LoginBody(username: Option<string>, password: Option<string>)

  /** The claims signed into the token. */
  datatype TokenPayload = TokenPayload(userId: int, username: string, role: UsersApi.Role)

  /** The user as the success body shows it: there is no password field. */
  datatype SessionUser = SessionUser(id: int, username: string, role: UsersApi.Role)

  datatype Cookie = Cookie(
    name: string,
    value: string,
    httpOnly: bool,
    secure: bool,
    sameSite: string,
    maxAge: int,
    path: string)

  datatype LoginResponse =
    | LoggedIn(message: string, user: SessionUser, cookie: Cookie)
    | LoginError(status: int, error: string)

  /** `expiresIn: '24h'` and `maxAge: 60 * 60 * 24`, in seconds. */
  const SessionSeconds: int := 60 * 60 * 24

  const TokenCookie := "auth-token"
  const MissingMessage := "Необходимо указать имя пользователя и пароль"
  const BadCredentialsMessage := "Неверное имя пользователя или пароль"
  const SuccessMessage := "Успешный вход"
  const ServerErrorMessage := "Произошла ошибка при входе в систему. Пожалуйста, попробуйте позже."

  /** `findUnique({ where: { username } })`: the row holding the username, if any. */
  function FindByUsername(table: seq<UsersApi.User>, name: string): (r: Option<UsersApi.User>)
    ensures r.Some? ==> r.value in table && r.value.username == name
    ensures r.None? <==> !UsersApi.UsernameTaken(table, name)
  {
    if table == [] then None
    else if table[0].username == name then Some(table[0])
    else
      var r := FindByUsername(table[1..], name);
      assert UsersApi.UsernameTaken(table[1..], name) ==> UsersApi.UsernameTaken(table, name) by {
        if UsersApi.UsernameTaken(table[1..], name) {
          var i :| 0 <= i < |table[1..]| && table[1..][i].username == name;
          assert table[i + 1].username == name;
        }
      }
      r
  }

  function Session(u: UsersApi.User): SessionUser {
    SessionUser(u.id, u.username, u.role)
  }

  function SessionCookie(u: UsersApi.User, sign: (TokenPayload, int) -> string, production: bool): Cookie {
    Cookie(TokenCookie, sign(TokenPayload(u.id, u.username, u.role), SessionSeconds),
           true, production, "strict", SessionSeconds, "/")
  }

  /** Both fields present and non-empty, the guard of the 400 answer. */
  predicate HasCredentials(b: LoginBody) {
    UsersApi.ParamOr(b.username, "") != "" && UsersApi.ParamOr(b.password, "") != ""
  }

  /**
   * POST /api/auth/login. A body that is not JSON and a failed lookup give
   * 500; missing credentials give 400 before the lookup; a username nobody
   * holds or a password that does not match the hash give the same 401;
   * otherwise the user is logged in.
   */
  function Login(body: Option<LoginBody>, db: Option<seq<UsersApi.User>>, compare: (string, string) -> bool,
                 sign: (TokenPayload, int) -> string, production: bool): (r: LoginResponse)
    ensures body.None? ==> r == LoginError(500, ServerErrorMessage)
    ensures body.Some? && !HasCredentials(body.value) ==> r == LoginError(400, MissingMessage)
    ensures body.Some? && HasCredentials(body.value) && db.None? ==> r == LoginError(500, ServerErrorMessage)
    ensures r.LoginError? ==>
      || r == LoginError(400, MissingMessage)
      || r == LoginError(401, BadCredentialsMessage)
      || r == LoginError(500, ServerErrorMessage)
    ensures r.LoggedIn? <==>
      && body.Some? && HasCredentials(body.value) && db.Some?
      && FindByUsername(db.value, body.value.username.value).Some?
      && compare(body.value.password.value, FindByUsername(db.value, body.value.username.value).value.password)
    ensures r.LoggedIn? ==>
      var u := FindByUsername(db.value, body.value.username.value).value;
      && r.message == SuccessMessage
      && r.user == Session(u)
      && r.cookie == SessionCookie(u, sign, production)
  {
    match body
    case None => LoginError(500, ServerErrorMessage)
    case Some(b) =>
      if !HasCredentials(b) then LoginError(400, MissingMessage)
      else if db.None? then LoginError(500, ServerErrorMessage)
      else
        var user := FindByUsername(db.value, b.username.value);
        var valid := user.Some? && compare(b.password.value, user.value.password);
        if !valid then LoginError(401, BadCredentialsMessage)
        else LoggedIn(SuccessMessage, Session(user.value), SessionCookie(user.value, sign, production))
  }

  /** The cookie is `auth-token`, httpOnly, sameSite strict, path "/", and lives exactly as long as the token. */
  lemma CookieAttributes(u: UsersApi.User, sign: (TokenPayload, int) -> string, production: bool)
    ensures var c := SessionCookie(u, sign, production);
      && c.name == "auth-token" && c.httpOnly && c.secure == production
      && c.sameSite == "strict" && c.path == "/" && c.maxAge == 86400
      && c.value == sign(TokenPayload(u.id, u.username, u.role), c.maxAge)
  {
  }

  /** Missing credentials are refused without looking at the table or the hash. */
  lemma MissingCredentialsNeverLookedUp(b: LoginBody, db1: Option<seq<UsersApi.User>>, db2: Option<seq<UsersApi.User>>,
                                        c1: (string, string) -> bool, c2: (string, string) -> bool,
                                        sign: (TokenPayload, int) -> string, production: bool)
    requires !HasCredentials(b)
    ensures Login(Some(b), db1, c1, sign, production) == Login(Some(b), db2, c2, sign, production)
                                                      == LoginError(400, MissingMessage)
  {
  }

  /** For an unknown username the hash comparison is never consulted: any `compare` gives the same 401. */
  lemma UnknownUserNeverCompared(b: LoginBody, table: seq<UsersApi.User>,
                                 c1: (string, string) -> bool, c2: (string, string) -> bool,
                                 sign: (TokenPayload, int) -> string, production: bool)
    requires HasCredentials(b)
    requires !UsersApi.UsernameTaken(table, b.username.value)
    ensures Login(Some(b), Some(table), c1, sign, production) == Login(Some(b), Some(table), c2, sign, production)
                                                              == LoginError(401, BadCredentialsMessage)
  {
  }

  /** An unknown username and a wrong password cannot be told apart from the answer. */
  lemma UnknownUserLikeWrongPassword(b: LoginBody, unknown: seq<UsersApi.User>, known: seq<UsersApi.User>,
                                     compare: (string, string) -> bool,
                                     sign: (TokenPayload, int) -> string, production: bool)
    requires HasCredentials(b)
    requires !UsersApi.UsernameTaken(unknown, b.username.value)
    requires FindByUsername(known, b.username.value).Some?
    requires !compare(b.password.value, FindByUsername(known, b.username.value).value.password)
    ensures Login(Some(b), Some(unknown), compare, sign, production)
         == Login(Some(b), Some(known), compare, sign, production)
  {
  }

  /** With unique usernames, a matching password logs in the very row that holds the username. */
  lemma LogsInTheRow(table: seq<UsersApi.User>, u: UsersApi.User, password: string,
                     compare: (string, string) -> bool, sign: (TokenPayload, int) -> string, production: bool)
    requires UsersApi.UniqueColumns(table)
    requires u in table && u.username != "" && password != ""
    requires compare(password, u.password)
    ensures Login(Some(LoginBody(Some(u.username), Some(password))), Some(table), compare, sign, production)
         == LoggedIn(SuccessMessage, SessionUser(u.id, u.username, u.role), SessionCookie(u, sign, production))
  {
    var i :| 0 <= i < |table| && table[i] == u;
    assert UsersApi.UsernameTaken(table, u.username);
    var found := FindByUsername(table, u.username).value;
    var j :| 0 <= j < |table| && table[j] == found;
    assert i == j;
  }
}
