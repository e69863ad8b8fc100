/** The administrator login page script: per-field validation of the form, the guard that
    keeps a second submission from starting while one is in flight, the handling of the
    server's answer, the password visibility toggle and the submit cooldown. */
module AdminLogin {
  import opened Js
  import AuthMiddleware
  import AuthRoutes

  datatype Field = Username | Password

  /** What `validateField` shows under a field: nothing, or an error message. */
  datatype Verdict = Valid | Invalid(message: string)

  const UsernameRequired: string := "El usuario es requerido"
  const UsernameTooShort: string := "El usuario debe tener al menos 3 caracteres"
  const PasswordRequired: string := "La contraseña es requerida"
  const PasswordTooShort: string := "La contraseña debe tener al menos 6 caracteres"

  /** The shortest trimmed value each field accepts. */
  function MinLength(f: Field): nat {
    match f
    case Username => 3
    case Password => 6
  }

  function RequiredMessage(f: Field): string {
    match f
    case Username => UsernameRequired
    case Password => PasswordRequired
  }

  function TooShortMessage(f: Field): string {
    match f
    case Username => UsernameTooShort
    case Password => PasswordTooShort
  }

  /** `validateField`: the trimmed value is required, then must reach the field's minimum
      length; whitespace at either end never counts towards it. */
  function ValidateField(f: Field, raw: string): (v: Verdict)
    ensures v.Valid? <==> JsLength(Trim(raw)) >= MinLength(f)
    ensures Trim(raw) == "" ==> v == Invalid(RequiredMessage(f))
    ensures Trim(raw) != "" && !v.Valid? ==> v == Invalid(TooShortMessage(f))
  {
    var value := Trim(raw);
    if value == "" then Invalid(RequiredMessage(f))
    else if JsLength(value) < MinLength(f) then Invalid(TooShortMessage(f))
    else Valid
  }

  /** Padding a value with whitespace never changes its verdict. */
  lemma PaddingIgnored(f: Field, raw: string)
    ensures ValidateField(f, Trim(raw)) == ValidateField(f, raw)
  {
    TrimKeeps(Trim(raw));
  }

  /** Both fields' verdicts and whether the form may be sent. */
  datatype FormVerdict = FormVerdict(username: Verdict, password: Verdict, ok: bool)

  /** `validateForm`: both fields are validated, so both show their error at once, and the
      form passes only when both are valid. */
  function ValidateForm(username: string, password: string): (r: FormVerdict)
    ensures r.username == ValidateField(Username, username)
    ensures r.password == ValidateField(Password, password)
    ensures r.ok <==> JsLength(Trim(username)) >= 3 && JsLength(Trim(password)) >= 6
  {
    var u := ValidateField(Username, username);
    var p := ValidateField(Password, password);
    FormVerdict(u, p, u.Valid? && p.Valid?)
  }

  /** An invalid password is reported even when the username is invalid too. */
  lemma BothErrorsShown(username: string, password: string)
    requires Trim(username) == "" && Trim(password) == ""
    ensures ValidateForm(username, password).username == Invalid(UsernameRequired)
    ensures ValidateForm(username, password).password == Invalid(PasswordRequired)
    ensures !ValidateForm(username, password).ok
  {
  }

  /** The body the page posts to the login endpoint. */
  datatype Request = Request(username: string, password: string)

  /** The JSON body of the login endpoint's answer, as far as the page reads it: the
      top-level `message`, `token` and `user` members, and the nested `data` object.
      `user` members are carried as the JSON text `JSON.stringify` gives for them. */
  datatype ReplyBody = ReplyBody(message: Option<string>, token: Option<string>, user: Option<string>,
                                 data: Option<ReplyData>)

  /** The `data` member of a successful login answer. */
  datatype ReplyData = ReplyData(token: Option<string>, user: Option<string>)

  /** How the request ended: an answer with `response.ok` and its parsed body, or a failure
      to reach the server or to parse its answer. */
  datatype Outcome = Answered(ok: bool, body: ReplyBody) | Unreachable

  /** What the login endpoint sends for the handler's answer and session: a 2xx status, then
      `{success, message, data: {token, user}}` on success and `{success, message}` otherwise.
      `json` stands for the text `JSON.stringify` gives for the user object. */
  function ServerReply(answer: AuthRoutes.Answer, session: Option<AuthRoutes.Session>, json: AuthMiddleware.User -> string): (r: Outcome)
    ensures r.Answered? && (r.ok <==> 200 <= answer.status < 300)
    ensures r.body.message == Some(answer.message)
    ensures r.body.token.None? && r.body.user.None?
    ensures r.body.data.Some? <==> session.Some?
  {
    var data := if session.Some? then Some(ReplyData(Some(session.value.token), Some(json(session.value.user)))) else None;
    Answered(200 <= answer.status < 300, ReplyBody(Some(answer.message), None, None, data))
  }

  const Welcome: string := "¡Bienvenido! Redirigiendo..."
  const LoginFailed: string := "Error en el inicio de sesión"
  const ConnectionError: string := "Error de conexión. Intenta de nuevo."

  /** `data.message || 'Error en el inicio de sesión'`. */
  function ServerMessage(message: Option<string>): (r: string)
    ensures r != ""
    ensures Truthy(message) ==> r == message.value
    ensures !Truthy(message) ==> r == LoginFailed
  {
    if Truthy(message) then message.value else LoginFailed
  }

  /** The text `localStorage.setItem` stores for a member: the member itself, or
      `"undefined"` when it is missing (`String(undefined)`, and `JSON.stringify(undefined)`
      is `undefined` too). */
  function StoredText(v: Option<string>): (r: string)
    ensures v.Some? ==> r == v.value
    ensures v.None? ==> r == "undefined"
  {
    if v.Some? then v.value else "undefined"
  }

  /** `handleLoginSuccess` as written: the token and the user are read from the top level
      of the answer. */
  function SavedSession(body: ReplyBody): (r: (string, string))
    ensures r == (StoredText(body.token), StoredText(body.user))
  {
    (StoredText(body.token), StoredText(body.user))
  }

  /** The evidently intended reading: the token and the user the endpoint nests under
      `data`. */
  function IntendedSession(body: ReplyBody): (r: (string, string))
    ensures body.data.Some? ==> r == (StoredText(body.data.value.token), StoredText(body.data.value.user))
    ensures body.data.None? ==> r == ("undefined", "undefined")
  {
    if body.data.Some? then (StoredText(body.data.value.token), StoredText(body.data.value.user))
    else ("undefined", "undefined")
  }

  /** After any successful login, the page as written stores the text `"undefined"` under both
      keys; the issued token, which holds the dots of a signed token, is lost. */
  lemma LoginReplyLosesToken(answer: AuthRoutes.Answer, session: AuthRoutes.Session, json: AuthMiddleware.User -> string)
    requires answer.status == 200 && '.' in session.token
    ensures var r := ServerReply(answer, Some(session), json);
      && r.ok
      && SavedSession(r.body) == ("undefined", "undefined")
      && SavedSession(r.body).0 != session.token
  {
    var r := ServerReply(answer, Some(session), json);
    assert '.' !in "undefined";
  }

  /** Read from `data`, the page stores exactly the token and the user the endpoint issued. */
  lemma IntendedSessionKeepsLogin(answer: AuthRoutes.Answer, session: AuthRoutes.Session, json: AuthMiddleware.User -> string)
    requires answer.status == 200
    ensures var r := ServerReply(answer, Some(session), json);
      r.ok && IntendedSession(r.body) == (session.token, json(session.user))
  {
  }

  const SubmitCooldown: int := 2000

  /** The submissions `preventMultipleSubmit` lets through when called at `times`, starting
      from the last accepted time `last`. */
  function Admitted(last: int, times: seq<int>): seq<int>
    decreases |times|
  {
    if times == [] then []
    else if times[0] - last < SubmitCooldown then Admitted(last, times[1..])
    else [times[0]] + Admitted(times[0], times[1..])
  }

  /** Any two submissions let through are at least the cooldown apart, and the first is at
      least the cooldown after the last one before. */
  lemma {:induction false} AdmittedSpaced(last: int, times: seq<int>)
    ensures forall k :: 0 <= k < |Admitted(last, times)| ==> Admitted(last, times)[k] in times
    ensures |Admitted(last, times)| > 0 ==> Admitted(last, times)[0] - last >= SubmitCooldown
    ensures forall k :: 0 < k < |Admitted(last, times)| ==>
              Admitted(last, times)[k] - Admitted(last, times)[k - 1] >= SubmitCooldown
    decreases |times|
  {
    if times != [] {
      var t := times[0];
      if t - last < SubmitCooldown {
        AdmittedSpaced(last, times[1..]);
      } else {
        var rest := Admitted(t, times[1..]);
        AdmittedSpaced(t, times[1..]);
        var r := [t] + rest;
        assert Admitted(last, times) == r;
        forall k | 0 < k < |r|
          ensures r[k] - r[k - 1] >= SubmitCooldown
        {
          assert r[k] == rest[k - 1];
        }
        forall k | 0 <= k < |r|
          ensures r[k] in times
        {
          if k > 0 {
            assert r[k] == rest[k - 1];
          }
        }
      }
    }
  }

  /** `togglePassword`: the other of `password` and `text`. */
  function Toggled(kind: string): (r: string)
    ensures r == "text" <==> kind == "password"
    ensures r == "password" || r == "text"
  {
    if kind == "password" then "text" else "password"
  }

  /** Toggling twice shows the field as it was. */
  lemma ToggleTwice(kind: string)
    requires kind == "password" || kind == "text"
    ensures Toggled(Toggled(kind)) == kind
  {
  }

  /** The page's state: the two inputs, the password input's type, the submit flag and the
      button, the alert, what is kept in local storage and the cooldown's last time. */
  class LoginForm {
    var username: string
    var password: string
    var passwordType: string
    var isSubmitting: bool
    var buttonDisabled: bool
    var alert: Option<string>
    var storedToken: Option<string>
    var storedUser: Option<string>
    var redirecting: bool
    var lastSubmitTime: int

    constructor (username: string, password: string)
      ensures this.username == username && this.password == password
      ensures passwordType == "password" && !isSubmitting && !buttonDisabled
      ensures alert.None? && storedToken.None? && storedUser.None? && !redirecting
      ensures lastSubmitTime == 0
    {
      this.username := username;
      this.password := password;
      passwordType := "password";
      isSubmitting := false;
      buttonDisabled := false;
      alert := None;
      storedToken := None;
      storedUser := None;
      redirecting := false;
      lastSubmitTime := 0;
    }

    /** `setLoadingState`: the submit flag and the disabled button follow `loading`. */
    method SetLoadingState(loading: bool)
      modifies this`isSubmitting, this`buttonDisabled
      ensures isSubmitting == loading && buttonDisabled == loading
    {
      isSubmitting := loading;
      buttonDisabled := loading;
    }

    /** The first half of `handleLogin`, up to the request: nothing happens while a request is
        in flight or when the form is invalid; otherwise the page enters the loading state and
        posts the trimmed username with the password as typed. */
    method BeginLogin() returns (request: Option<Request>)
      modifies this`isSubmitting, this`buttonDisabled
      ensures old(isSubmitting) ==> request.None? && isSubmitting && buttonDisabled == old(buttonDisabled)
      ensures request.Some? <==> !old(isSubmitting) && ValidateForm(username, password).ok
      ensures request.Some? ==> request.value == Request(Trim(username), password) && isSubmitting && buttonDisabled
      ensures request.None? ==> isSubmitting == old(isSubmitting) && buttonDisabled == old(buttonDisabled)
    {
      if isSubmitting {
        return None;
      }
      var form := ValidateForm(username, password);
      if !form.ok {
        return None;
      }
      SetLoadingState(true);
      request := Some(Request(Trim(username), password));
    }

    /** The second half of `handleLogin`, once the request has ended. An answer with
        `response.ok` goes to `handleLoginSuccess`, which stores what `SavedSession` reads,
        greets and schedules the redirect; any other answer shows `data.message` or the
        generic message, and a failed request the connection message, both clearing the
        password. The loading state always ends. */
    method FinishLogin(outcome: Outcome)
      modifies this
      ensures !isSubmitting && !buttonDisabled
      ensures outcome.Answered? && outcome.ok ==>
        && storedToken == Some(SavedSession(outcome.body).0)
        && storedUser == Some(SavedSession(outcome.body).1)
        && alert == Some(Welcome) && redirecting && password == old(password)
      ensures !(outcome.Answered? && outcome.ok) ==>
        && password == "" && storedToken == old(storedToken)
        && storedUser == old(storedUser) && redirecting == old(redirecting)
      ensures outcome.Answered? && !outcome.ok ==> alert == Some(ServerMessage(outcome.body.message))
      ensures outcome.Unreachable? ==> alert == Some(ConnectionError)
      ensures username == old(username) && passwordType == old(passwordType)
      ensures lastSubmitTime == old(lastSubmitTime)
    {
      match outcome {
        case Answered(ok, body) =>
          if ok {
            var saved := SavedSession(body);
            storedToken := Some(saved.0);
            storedUser := Some(saved.1);
            alert := Some(Welcome);
            redirecting := true;
          } else {
            HandleLoginError(ServerMessage(body.message));
          }
        case Unreachable =>
          HandleLoginError(ConnectionError);
      }
      SetLoadingState(false);
    }

    /** `handleLoginError`: shows the message and clears the password input. */
    method HandleLoginError(message: string)
      modifies this`alert, this`password
      ensures alert == Some(message) && password == ""
    {
      alert := Some(message);
      password := "";
    }

    /** `togglePassword`. */
    method TogglePassword()
      modifies this`passwordType
      ensures passwordType == Toggled(old(passwordType))
    {
      passwordType := if passwordType == "password" then "text" else "password";
    }

    /** `preventMultipleSubmit`: refuses a call less than the cooldown after the last accepted
        one and leaves the time alone; otherwise records `now` and accepts. */
    method PreventMultipleSubmit(now: int) returns (accepted: bool)
      modifies this`lastSubmitTime
      ensures accepted <==> now - old(lastSubmitTime) >= SubmitCooldown
      ensures accepted ==> lastSubmitTime == now
      ensures !accepted ==> lastSubmitTime == old(lastSubmitTime)
      ensures Admitted(old(lastSubmitTime), [now]) == if accepted then [now] else []
    {
      if now - lastSubmitTime < SubmitCooldown {
        return false;
      }
      lastSubmitTime := now;
      return true;
    }
  }
}
