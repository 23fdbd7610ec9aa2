/**
 * The login page: a username/password form whose `handleSubmit` posts the
 * form to the login route and either moves to /dashboard or shows an error,
 * translating two older server messages into the current wording.
 *
 * The route's answer is a parameter (`Reply`); `Unreachable` stands for a
 * request that throws (no connection, or a body that is not JSON).
 */
module LoginPage {
  import opened JsText
  import LoginRoute
  import UsersApi

  /** What `fetch` and `response.json()` produced: an answer with `response.ok` and `data.error`, or a throw. */
  datatype Reply = Answer(ok: bool, error: Option<string>) | Unreachable

  /** Messages an earlier login route sent for an unknown user and a wrong password. */
  const WrongPasswordMessage := "Неверный пароль"
  const UnknownUserMessage := "Пользователь не найден"
  const FallbackMessage := "Произошла ошибка при входе"
  const ConnectionMessage := "Не удалось подключиться к серверу. Пожалуйста, попробуйте позже."

  const DashboardPath := "/dashboard"

  /** `response.ok`: the route accepted the request. */
  predicate Accepted(reply: Reply) {
    reply.Answer? && reply.ok
  }

  /** `data.error || 'Произошла ошибка при входе'`. */
  function ErrorOrFallback(error: Option<string>): string {
    if error.None? || error.value == "" then FallbackMessage else error.value
  }

  /**
   * The error the page shows after the request: none on success, the
   * connection message on a throw, the generic wording for either older
   * message, else the server's own error or the fallback.
   */
  function DisplayedError(reply: Reply): (m: string)
    ensures reply.Answer? && reply.ok ==> m == ""
    ensures reply.Unreachable? ==> m == ConnectionMessage
    ensures reply.Answer? && !reply.ok ==> m != ""
    ensures reply.Answer? && !reply.ok &&
            (reply.error == Some(WrongPasswordMessage) || reply.error == Some(UnknownUserMessage)) ==>
            m == LoginRoute.BadCredentialsMessage
  {
    match reply
    case Unreachable => ConnectionMessage
    case Answer(ok, error) =>
      if ok then ""
      else if error == Some(WrongPasswordMessage) || error == Some(UnknownUserMessage) then
        LoginRoute.BadCredentialsMessage
      else ErrorOrFallback(error)
  }

  /** The reply a login route response gives the page: `ok` for 2xx, and the body's `error`. */
  function ReplyOf(r: LoginRoute.LoginResponse): Reply {
    match r
    case LoggedIn(_, _, _) => Answer(true, None)
    case LoginError(_, e) => Answer(false, Some(e))
  }

  /**
   * Against the current route the translation never fires: every error the
   * route sends is shown word for word, and a wrong password shows the same
   * text as an unknown user.
   */
  lemma RouteErrorsShownAsSent(body: Option<LoginRoute.LoginBody>, db: Option<seq<UsersApi.User>>,
                               compare: (string, string) -> bool,
                               sign: (LoginRoute.TokenPayload, int) -> string, production: bool)
    ensures var r := LoginRoute.Login(body, db, compare, sign, production);
      && (r.LoginError? ==> DisplayedError(ReplyOf(r)) == r.error)
      && (r.LoggedIn? ==> DisplayedError(ReplyOf(r)) == "")
  {
  }

  /** The form fields `handleChange` can set. */
  datatype Field = UsernameField | PasswordField

  /** The page. `location` is where the router points. */
  class LoginForm {
    var username: string
    var password: string
    var error: string
    var isLoading: bool
    var showPassword: bool
    var location: string

    constructor ()
      ensures username == "" && password == "" && error == "" && !isLoading && !showPassword
      ensures location == "/login"
    {
      username, password, error := "", "", "";
      isLoading, showPassword := false, false;
      location := "/login";
    }

    /**
     * `handleSubmit`: clears the error and sets `isLoading`, sends the form,
     * then either moves to /dashboard or shows the error; `isLoading` is
     * false again at the end. Returns the body that was sent.
     */
    method HandleSubmit(reply: Reply) returns (sent: LoginRoute.LoginBody)
      modifies this
      ensures sent == LoginRoute.LoginBody(Some(username), Some(password))
      ensures error == DisplayedError(reply)
      ensures location == if Accepted(reply) then DashboardPath else old(location)
      ensures !isLoading
      ensures username == old(username) && password == old(password) && showPassword == old(showPassword)
    {
      error := "";
      isLoading := true;
      sent := LoginRoute.LoginBody(Some(username), Some(password));
      if reply.Unreachable? {
        error := ConnectionMessage;
      } else if !reply.ok {
        if reply.error == Some(WrongPasswordMessage) || reply.error == Some(UnknownUserMessage) {
          error := LoginRoute.BadCredentialsMessage;
        } else {
          error := ErrorOrFallback(reply.error);
        }
      } else {
        location := DashboardPath;
      }
      isLoading := false;
    }

    /** `handleChange`: one field takes the value and the error is cleared. */
    method HandleChange(field: Field, value: string)
      modifies this
      ensures field == UsernameField ==> username == value && password == old(password)
      ensures field == PasswordField ==> password == value && username == old(username)
      ensures error == ""
      ensures isLoading == old(isLoading) && showPassword == old(showPassword) && location == old(location)
    {
      match field {
        case UsernameField => username := value;
        case PasswordField => password := value;
      }
      error := "";
    }

    /** `togglePasswordVisibility`. */
    method TogglePasswordVisibility()
      modifies this
      ensures showPassword == !old(showPassword)
      ensures username == old(username) && password == old(password) && error == old(error)
      ensures isLoading == old(isLoading) && location == old(location)
    {
      showPassword := !showPassword;
    }
  }

  /**
   * The form's own credentials, accepted by the route, take the page to the
   * dashboard with no error.
   */
  lemma AcceptedLoginOpensDashboard(username: string, password: string, db: Option<seq<UsersApi.User>>,
                                    compare: (string, string) -> bool,
                                    sign: (LoginRoute.TokenPayload, int) -> string, production: bool)
    requires LoginRoute.Login(Some(LoginRoute.LoginBody(Some(username), Some(password))), db, compare, sign, production).LoggedIn?
    ensures var reply := ReplyOf(LoginRoute.Login(Some(LoginRoute.LoginBody(Some(username), Some(password))), db, compare, sign, production));
      Accepted(reply) && DisplayedError(reply) == ""
  {
  }
}
