/** The administrators' authentication endpoints: login with its attempt counting, password
    change, administrator creation and deletion, and the password-reset token lifecycle.
    Each handler is a chain of checks in which the first failing one decides the answer;
    `FirstFailure` states that rule once and every handler is proved against it. */
module AuthRoutes {
  import opened Js
  import opened Tables
  import opened Database
  import opened AuthMiddleware

  /** A JSON answer: status, message and the password-strength errors some refusals list. */
  datatype Answer = Answer(status: nat, message: string, errors: seq<string>)

  /** One validation step: whether it passes, and what is answered when it does not. */
  datatype Check = Check(pass: bool, answer: Answer)

  /** The answer of a chain of checks with early returns: the answer of the first failing
      check, or `success` when every check passes. */
  function FirstFailure(checks: seq<Check>, success: Answer): Answer {
    if checks == [] then success
    else if !checks[0].pass then checks[0].answer
    else FirstFailure(checks[1..], success)
  }

  /** When check `k` is the first to fail, its answer is the chain's. */
  lemma {:induction false} FirstFailureAt(checks: seq<Check>, success: Answer, k: nat)
    requires k < |checks| && !checks[k].pass
    requires forall j :: 0 <= j < k ==> checks[j].pass
    ensures FirstFailure(checks, success) == checks[k].answer
  {
    if k > 0 {
      assert checks[0].pass;
      FirstFailureAt(checks[1..], success, k - 1);
    }
  }

  /** When every check passes, the chain succeeds. */
  lemma {:induction false} FirstFailureAllPass(checks: seq<Check>, success: Answer)
    requires forall i :: 0 <= i < |checks| ==> checks[i].pass
    ensures FirstFailure(checks, success) == success
  {
    if checks != [] {
      assert checks[0].pass;
      FirstFailureAllPass(checks[1..], success);
    }
  }

  /** Otherwise the chain answers what some failing check answers. */
  lemma {:induction false} FirstFailureRefuses(checks: seq<Check>, success: Answer, k: nat)
    requires k < |checks| && !checks[k].pass
    ensures exists i :: 0 <= i < |checks| && !checks[i].pass && FirstFailure(checks, success) == checks[i].answer
  {
    if checks[0].pass {
      FirstFailureRefuses(checks[1..], success, k - 1);
      var i :| 0 <= i < |checks[1..]| && !checks[1..][i].pass && FirstFailure(checks[1..], success) == checks[1..][i].answer;
      assert checks[i + 1] == checks[1..][i];
    } else {
      assert !checks[0].pass;
    }
  }

  /** A refusal never looks like success: when every refusal has another status, the chain
      succeeds exactly when every check passes. */
  lemma SuccessIffAllPass(checks: seq<Check>, success: Answer)
    requires forall i :: 0 <= i < |checks| ==> checks[i].answer.status != success.status
    ensures FirstFailure(checks, success).status == success.status <==> forall i :: 0 <= i < |checks| ==> checks[i].pass
  {
    if forall i :: 0 <= i < |checks| ==> checks[i].pass {
      FirstFailureAllPass(checks, success);
    } else {
      var k :| 0 <= k < |checks| && !checks[k].pass;
      FirstFailureRefuses(checks, success, k);
    }
  }

  const Required: Answer := Answer(400, "Todos los campos son requeridos", [])
  const Mismatch: Answer := Answer(400, "Las contraseñas no coinciden", [])
  const WeakMessage: string := "La contraseña no cumple con los requisitos de seguridad"

  /** The errors a weak password is refused with. */
  function StrengthErrors(p: Option<string>): seq<string> {
    if p.Some? then ValidatePasswordStrength(p.value).errors else []
  }

  predicate Strong(p: Option<string>) {
    p.Some? && ValidatePasswordStrength(p.value).isValid
  }

  // ---------------------------------------------------------------------------
  // POST /auth/login
  // ---------------------------------------------------------------------------

  /** The admin `WHERE username = ? OR email = ?` yields first. */
  function FindLogin(admins: seq<Admin>, name: string): (r: Option<Admin>)
    ensures r.Some? ==> r.value in admins && (r.value.username == name || r.value.email == name)
    ensures r.None? ==> forall a :: a in admins ==> a.username != name && a.email != name
  {
    var rows := Select(admins, (a: Admin) => a.username == name || a.email == name);
    if rows != [] then assert rows[0] in rows; GetOne(rows) else GetOne(rows)
  }

  function SanitizedOr(p: Option<string>): string {
    if p.Some? then SanitizeString(p.value) else ""
  }

  const LoginMissing: Answer := Answer(400, "Usuario y contraseña son requeridos", [])
  const TooManyAttempts: Answer := Answer(429, "Demasiados intentos de login. Intenta de nuevo en 15 minutos.", [])
  const BadCredentials: Answer := Answer(401, "Credenciales inválidas", [])
  const Deactivated: Answer := Answer(401, "Cuenta desactivada", [])
  const LoginOk: Answer := Answer(200, "Login exitoso", [])

  /** The login handler's checks, in order: both fields given, the IP not blocked, then the
      admin found by the sanitised name, active, and matching the sanitised password (`verify`
      stands for bcrypt's compare). */
  function LoginChecks(admins: seq<Admin>, given: bool, name: string, pass: string, blocked: bool,
                       verify: (string, string) -> bool): seq<Check>
  {
    var found := FindLogin(admins, name);
    [ Check(given, LoginMissing),
      Check(!blocked, TooManyAttempts),
      Check(found.Some?, BadCredentials),
      Check(found.Some? && found.value.isActive, Deactivated),
      Check(found.Some? && verify(pass, found.value.passwordHash), BadCredentials) ]
  }

  /** The claims `generateToken` signs. */
  datatype Claims = Claims(id: int, username: string, email: string, role: string)

  /** The token and the user a successful login returns. */
  datatype Session = Session(token: string, user: User)

  function SessionOf(a: Admin, sign: Claims -> string): Session {
    Session(sign(Claims(a.id, a.username, a.email, a.role)), UserOf(a))
  }

  /** The login handler behind `bruteForceProtection`. Missing fields are refused before the
      throttle is consulted; the rest of the checks run on the sanitised credentials. */
  method Login(throttle: LoginThrottle, db: Db, username: Option<string>, password: Option<string>,
               ip: string, now: int, verify: (string, string) -> bool, sign: Claims -> string)
    returns (answer: Answer, session: Option<Session>)
    modifies throttle
    ensures !(Truthy(username) && Truthy(password)) ==>
      answer == LoginMissing && session.None? && throttle.attempts == old(throttle.attempts)
    ensures Truthy(username) && Truthy(password) ==>
      var name, pass := SanitizedOr(username), SanitizedOr(password);
      && answer == FirstFailure(LoginChecks(db.admins, true, name, pass, Blocked(old(throttle.attempts), ip, now), verify), LoginOk)
      && (session.Some? <==> answer.status == 200)
      && (session.Some? ==> FindLogin(db.admins, name).Some? && session.value == SessionOf(FindLogin(db.admins, name).value, sign))
      && throttle.attempts == if answer.status == 401 then AfterIncrement(old(throttle.attempts), ip, now)
                              else AfterCheck(old(throttle.attempts), ip, now)
  {
    if !Truthy(username) || !Truthy(password) {
      return LoginMissing, None;
    }
    var name := SanitizedOr(username);
    var pass := SanitizedOr(password);
    answer, session := Authenticate(throttle, db, name, pass, ip, now, verify, sign);
  }

  /** The login handler once both fields are present: a blocked IP is refused before any
      admin lookup; each of the three failed-credential paths counts one attempt and a
      successful login counts none. */
  method Authenticate(throttle: LoginThrottle, db: Db, name: string, pass: string,
                      ip: string, now: int, verify: (string, string) -> bool, sign: Claims -> string)
    returns (answer: Answer, session: Option<Session>)
    modifies throttle
    ensures answer == FirstFailure(LoginChecks(db.admins, true, name, pass, Blocked(old(throttle.attempts), ip, now), verify), LoginOk)
    ensures session.Some? <==> answer.status == 200
    ensures session.Some? ==> FindLogin(db.admins, name).Some? && session.value == SessionOf(FindLogin(db.admins, name).value, sign)
    ensures throttle.attempts == if answer.status == 401 then AfterIncrement(old(throttle.attempts), ip, now)
                                 else AfterCheck(old(throttle.attempts), ip, now)
  {
    ghost var checks := LoginChecks(db.admins, true, name, pass, Blocked(throttle.attempts, ip, now), verify);
    ghost var m := throttle.attempts;
    var blocked := throttle.IsLoginBlocked(ip, now);
    if blocked {
      FirstFailureAt(checks, LoginOk, 1);
      return TooManyAttempts, None;
    }
    CheckThenIncrement(m, ip, now);
    var admin := FindLogin(db.admins, name);
    if admin.None? {
      throttle.IncrementLoginAttempts(ip, now);
      FirstFailureAt(checks, LoginOk, 2);
      return BadCredentials, None;
    }
    if !admin.value.isActive {
      throttle.IncrementLoginAttempts(ip, now);
      FirstFailureAt(checks, LoginOk, 3);
      return Deactivated, None;
    }
    if !verify(pass, admin.value.passwordHash) {
      throttle.IncrementLoginAttempts(ip, now);
      FirstFailureAt(checks, LoginOk, 4);
      return BadCredentials, None;
    }
    FirstFailureAllPass(checks, LoginOk);
    var token := sign(Claims(admin.value.id, admin.value.username, admin.value.email, admin.value.role));
    session := Some(Session(token, UserOf(admin.value)));
    answer := LoginOk;
  }

  /** Counting a failure after a check is counting it on the table before the check, and a
      second check changes nothing. */
  lemma CheckThenIncrement(m: map<string, Attempt>, ip: string, now: int)
    ensures AfterIncrement(AfterCheck(m, ip, now), ip, now) == AfterIncrement(m, ip, now)
    ensures AfterCheck(AfterCheck(m, ip, now), ip, now) == AfterCheck(m, ip, now)
  {
    CheckIsStable(m, ip, now);
  }

  /** `POST /auth/login` as routed: `bruteForceProtection` first, then the handler. A blocked
      IP is refused before its fields are even looked at. */
  method LoginRoute(throttle: LoginThrottle, db: Db, username: Option<string>, password: Option<string>,
                    ip: string, now: int, verify: (string, string) -> bool, sign: Claims -> string)
    returns (answer: Answer, session: Option<Session>)
    modifies throttle
    ensures Blocked(old(throttle.attempts), ip, now) ==> answer == TooManyAttempts && session.None?
    ensures !Blocked(old(throttle.attempts), ip, now) && !(Truthy(username) && Truthy(password)) ==>
      answer == LoginMissing
    ensures !Blocked(old(throttle.attempts), ip, now) && Truthy(username) && Truthy(password) ==>
      answer == FirstFailure(LoginChecks(db.admins, true, SanitizedOr(username), SanitizedOr(password), false, verify), LoginOk)
    ensures session.Some? <==> answer.status == 200
    ensures throttle.attempts == if answer.status == 401 then AfterIncrement(old(throttle.attempts), ip, now)
                                 else AfterCheck(old(throttle.attempts), ip, now)
  {
    ghost var m := throttle.attempts;
    var g := throttle.BruteForceProtection(ip, now);
    if g.Halt? {
      return TooManyAttempts, None;
    }
    CheckIsStable(m, ip, now);
    CheckThenIncrement(m, ip, now);
    answer, session := Login(throttle, db, username, password, ip, now, verify, sign);
  }

  /** Each failed login raises the IP's in-window count by exactly one; a successful or
      refused-early login leaves it as it was. */
  lemma LoginCountsFailuresOnce(m: map<string, Attempt>, ip: string, now: int)
    ensures Checked(AfterIncrement(m, ip, now), ip, now).count == Checked(m, ip, now).count + 1
    ensures Checked(AfterCheck(m, ip, now), ip, now).count == Checked(m, ip, now).count
  {
    CheckIsStable(m, ip, now);
  }

  /** Missing fields are refused first, whatever the throttle and the admins table say. */
  lemma MissingFieldsFirst(admins: seq<Admin>, name: string, pass: string, blocked: bool, verify: (string, string) -> bool)
    ensures FirstFailure(LoginChecks(admins, false, name, pass, blocked, verify), LoginOk) == LoginMissing
  {
    FirstFailureAt(LoginChecks(admins, false, name, pass, blocked, verify), LoginOk, 0);
  }

  /** A blocked IP with both fields present is answered 429 whatever the admins table and the
      password: the lookup is never reached. */
  lemma BlockedLoginIgnoresAdmins(admins: seq<Admin>, name: string, pass: string, verify: (string, string) -> bool)
    ensures FirstFailure(LoginChecks(admins, true, name, pass, true, verify), LoginOk) == TooManyAttempts
  {
    FirstFailureAt(LoginChecks(admins, true, name, pass, true, verify), LoginOk, 1);
  }

  /** A login succeeds exactly for an active admin, found by username or email, whose
      password matches. */
  lemma LoginSucceedsIff(admins: seq<Admin>, given: bool, name: string, pass: string, verify: (string, string) -> bool)
    ensures var found := FindLogin(admins, name);
      FirstFailure(LoginChecks(admins, given, name, pass, false, verify), LoginOk).status == 200 <==>
        given && found.Some? && found.value.isActive && verify(pass, found.value.passwordHash)
  {
    var checks := LoginChecks(admins, given, name, pass, false, verify);
    SuccessIffAllPass(checks, LoginOk);
    assert (forall i :: 0 <= i < |checks| ==> checks[i].pass)
       <==> checks[0].pass && checks[2].pass && checks[3].pass && checks[4].pass;
  }

  /** The login handler compares the sanitised password, while creation, change and reset
      store the hash of the password as sent. An account whose password holds an angle
      bracket, which the strength rules accept as a special character, can therefore never
      log in, however exact the hash comparison is. */
  lemma SanitizedPasswordLocksOut(admins: seq<Admin>, name: string, raw: string,
                                  verify: (string, string) -> bool, hash: string -> string)
    requires '<' in raw || '>' in raw
    requires forall x, y :: verify(x, hash(y)) <==> x == y
    requires FindLogin(admins, name).Some? && FindLogin(admins, name).value.isActive
    requires FindLogin(admins, name).value.passwordHash == hash(raw)
    ensures FirstFailure(LoginChecks(admins, true, name, SanitizedOr(Some(raw)), false, verify), LoginOk) == BadCredentials
  {
    var sent := SanitizedOr(Some(raw));
    AngleBracketSanitized(raw);
    assert !verify(sent, hash(raw));
    WrongPasswordRefused(admins, name, sent, verify);
  }

  /** An active account given a password its hash does not verify is refused with the same
      answer as an unknown name. */
  lemma WrongPasswordRefused(admins: seq<Admin>, name: string, pass: string, verify: (string, string) -> bool)
    requires FindLogin(admins, name).Some? && FindLogin(admins, name).value.isActive
    requires !verify(pass, FindLogin(admins, name).value.passwordHash)
    ensures FirstFailure(LoginChecks(admins, true, name, pass, false, verify), LoginOk) == BadCredentials
  {
    var checks := LoginChecks(admins, true, name, pass, false, verify);
    FirstFailureAt(checks, LoginOk, 4);
  }

  /** Sanitising changes any password that holds an angle bracket. */
  lemma AngleBracketSanitized(raw: string)
    requires '<' in raw || '>' in raw
    ensures SanitizedOr(Some(raw)) != raw
  {
    var sent := SanitizeString(raw);
    assert '<' !in sent && '>' !in sent;
  }

  /** The password the login handler evidently means to compare: the one sent, as creation,
      change and reset store it. */
  function IntendedLoginPassword(p: Option<string>): (r: string)
    ensures p.Some? ==> r == p.value
    ensures p.None? ==> r == ""
  {
    if p.Some? then p.value else ""
  }

  /** Comparing the password as sent, an active account logs in with the password its hash
      was made from, whatever characters it holds. */
  lemma IntendedPasswordLogsIn(admins: seq<Admin>, name: string, raw: string,
                               verify: (string, string) -> bool, hash: string -> string)
    requires forall x, y :: verify(x, hash(y)) <==> x == y
    requires FindLogin(admins, name).Some? && FindLogin(admins, name).value.isActive
    requires FindLogin(admins, name).value.passwordHash == hash(raw)
    ensures FirstFailure(LoginChecks(admins, true, name, IntendedLoginPassword(Some(raw)), false, verify), LoginOk) == LoginOk
  {
    var checks := LoginChecks(admins, true, name, IntendedLoginPassword(Some(raw)), false, verify);
    assert verify(raw, hash(raw));
    FirstFailureAllPass(checks, LoginOk);
  }

  // ---------------------------------------------------------------------------
  // PUT /auth/change-password
  // ---------------------------------------------------------------------------

  /** The admin `WHERE id = ?` yields first. */
  function AdminById(admins: seq<Admin>, id: int): (r: Option<Admin>)
    ensures r.Some? <==> exists a :: a in admins && a.id == id
    ensures r.Some? ==> r.value in admins && r.value.id == id
  {
    var rows := Select(admins, (a: Admin) => a.id == id);
    if rows != [] then assert rows[0] in rows; GetOne(rows)
    else assert forall a :: a in admins ==> a.id != id; GetOne(rows)
  }

  /** `UPDATE admins SET password = ? WHERE id = ?`. */
  function SetPassword(admins: seq<Admin>, id: int, hash: string): (r: seq<Admin>)
    ensures |r| == |admins|
    ensures forall i :: 0 <= i < |admins| ==>
      r[i] == if admins[i].id == id then admins[i].(passwordHash := hash) else admins[i]
  {
    seq(|admins|, i requires 0 <= i < |admins| => if admins[i].id == id then admins[i].(passwordHash := hash) else admins[i])
  }

  const UserMissing: Answer := Answer(404, "Usuario no encontrado", [])
  const WrongCurrent: Answer := Answer(400, "Contraseña actual incorrecta", [])
  const WeakNewMessage: string := "La nueva contraseña no cumple con los requisitos de seguridad"
  const PasswordChanged: Answer := Answer(200, "Contraseña cambiada exitosamente", [])

  /** The change-password checks, in order: all three fields, new equals confirmation, then
      the checks against the stored admin. */
  function ChangePasswordChecks(admins: seq<Admin>, userId: int, current: Option<string>, newPassword: Option<string>,
                                confirm: Option<string>, verify: (string, string) -> bool): seq<Check>
  {
    [ Check(Truthy(current) && Truthy(newPassword) && Truthy(confirm), Required),
      Check(newPassword == confirm, Mismatch) ]
    + StoredPasswordChecks(admins, userId, current, newPassword, verify)
  }

  /** The admin exists, the current password verifies, the new one is strong. */
  function StoredPasswordChecks(admins: seq<Admin>, userId: int, current: Option<string>, newPassword: Option<string>,
                                verify: (string, string) -> bool): seq<Check>
  {
    var found := AdminById(admins, userId);
    [ Check(found.Some?, UserMissing),
      Check(found.Some? && current.Some? && verify(current.value, found.value.passwordHash), WrongCurrent),
      Check(Strong(newPassword), Answer(400, WeakNewMessage, StrengthErrors(newPassword))) ]
  }

  /** `PUT /auth/change-password` for the authenticated admin `userId`; `hash` stands for
      bcrypt's hash. The password is replaced exactly when every check passes. */
  method ChangePassword(db: Db, userId: int, current: Option<string>, newPassword: Option<string>,
                        confirm: Option<string>, verify: (string, string) -> bool, hash: string -> string)
    returns (answer: Answer)
    modifies db`admins
    ensures answer == FirstFailure(ChangePasswordChecks(old(db.admins), userId, current, newPassword, confirm, verify), PasswordChanged)
    ensures answer.status == 200 ==> db.admins == SetPassword(old(db.admins), userId, hash(newPassword.value))
    ensures answer.status != 200 ==> db.admins == old(db.admins)
  {
    ghost var checks := ChangePasswordChecks(db.admins, userId, current, newPassword, confirm, verify);
    if !Truthy(current) || !Truthy(newPassword) || !Truthy(confirm) {
      FirstFailureAt(checks, PasswordChanged, 0);
      return Required;
    }
    if newPassword != confirm {
      FirstFailureAt(checks, PasswordChanged, 1);
      return Mismatch;
    }
    answer := ReplacePassword(db, userId, current.value, newPassword.value, verify, hash);
    FirstFailureSkip([checks[0], checks[1]], StoredPasswordChecks(old(db.admins), userId, current, newPassword, verify),
                     PasswordChanged);
  }

  /** The change-password handler once the fields are present and the confirmation matches:
      the admin must exist, the current password must verify and the new one must be strong. */
  method ReplacePassword(db: Db, userId: int, current: string, newPassword: string,
                         verify: (string, string) -> bool, hash: string -> string)
    returns (answer: Answer)
    modifies db`admins
    ensures answer == FirstFailure(StoredPasswordChecks(old(db.admins), userId, Some(current), Some(newPassword), verify),
                                   PasswordChanged)
    ensures answer.status == 200 ==> db.admins == SetPassword(old(db.admins), userId, hash(newPassword))
    ensures answer.status != 200 ==> db.admins == old(db.admins)
  {
    ghost var checks := StoredPasswordChecks(db.admins, userId, Some(current), Some(newPassword), verify);
    var admin := AdminById(db.admins, userId);
    if admin.None? {
      FirstFailureAt(checks, PasswordChanged, 0);
      return UserMissing;
    }
    if !verify(current, admin.value.passwordHash) {
      FirstFailureAt(checks, PasswordChanged, 1);
      return WrongCurrent;
    }
    var strength := ValidatePasswordStrength(newPassword);
    if !strength.isValid {
      FirstFailureAt(checks, PasswordChanged, 2);
      return Answer(400, WeakNewMessage, strength.errors);
    }
    FirstFailureAllPass(checks, PasswordChanged);
    db.admins := SetPassword(db.admins, userId, hash(newPassword));
    answer := PasswordChanged;
  }

  /** A mismatched confirmation is reported before the admin is looked up or the current
      password checked, whatever they are. */
  lemma MismatchDecidedFirst(admins: seq<Admin>, userId: int, current: Option<string>, newPassword: Option<string>,
                             confirm: Option<string>, verify: (string, string) -> bool)
    requires Truthy(current) && Truthy(newPassword) && Truthy(confirm) && newPassword != confirm
    ensures FirstFailure(ChangePasswordChecks(admins, userId, current, newPassword, confirm, verify), PasswordChanged) == Mismatch
  {
    FirstFailureAt(ChangePasswordChecks(admins, userId, current, newPassword, confirm, verify), PasswordChanged, 1);
  }

  // ---------------------------------------------------------------------------
  // POST /auth/admins and DELETE /auth/admins/:id
  // ---------------------------------------------------------------------------

  predicate UsernameTaken(admins: seq<Admin>, username: string) {
    exists i :: 0 <= i < |admins| && admins[i].username == username
  }

  predicate EmailTaken(admins: seq<Admin>, email: string) {
    exists i :: 0 <= i < |admins| && admins[i].email == email
  }

  /** No two administrators share a username or an email. */
  predicate AdminsUnique(admins: seq<Admin>) {
    forall i, j :: 0 <= i < j < |admins| ==> admins[i].username != admins[j].username && admins[i].email != admins[j].email
  }

  const ShortUsername: Answer := Answer(400, "El nombre de usuario debe tener al menos 3 caracteres", [])
  const BadEmail: Answer := Answer(400, "Email inválido", [])
  const UsernameExists: Answer := Answer(400, "El nombre de usuario ya existe", [])
  const EmailExists: Answer := Answer(400, "El email ya existe", [])
  const AdminCreated: Answer := Answer(201, "Administrador creado exitosamente", [])

  /** The create-admin checks, in order: all four fields, a username of at least three
      characters, a valid email, a strong password, an unused username and an unused email. */
  function CreateAdminChecks(admins: seq<Admin>, username: Option<string>, email: Option<string>,
                             password: Option<string>, fullName: Option<string>): seq<Check>
  {
    [ Check(Truthy(username) && Truthy(email) && Truthy(password) && Truthy(fullName), Required),
      Check(username.Some? && JsLength(username.value) >= 3, ShortUsername),
      Check(email.Some? && ValidateEmail(email.value), BadEmail) ]
    + NewAdminChecks(admins, username, email, password)
  }

  /** The password is strong, and neither the username nor the e-mail is taken. */
  function NewAdminChecks(admins: seq<Admin>, username: Option<string>, email: Option<string>,
                          password: Option<string>): seq<Check>
  {
    [ Check(Strong(password), Answer(400, WeakMessage, StrengthErrors(password))),
      Check(username.Some? && !UsernameTaken(admins, username.value), UsernameExists),
      Check(email.Some? && !EmailTaken(admins, email.value), EmailExists) ]
  }

  /** `role || 'admin'`. */
  function RoleOrDefault(role: Option<string>): (r: string)
    ensures Truthy(role) ==> r == role.value
    ensures !Truthy(role) ==> r == "admin"
  {
    if Truthy(role) then role.value else "admin"
  }

  /** `POST /auth/admins` (behind `requireSuperAdmin`): the new administrator is stored,
      active, with the hashed password and the default role, exactly when every check
      passes; usernames and emails stay unique. */
  method CreateAdmin(db: Db, username: Option<string>, email: Option<string>, password: Option<string>,
                     fullName: Option<string>, role: Option<string>, newId: int, hash: string -> string)
    returns (answer: Answer)
    modifies db`admins
    ensures answer == FirstFailure(CreateAdminChecks(old(db.admins), username, email, password, fullName), AdminCreated)
    ensures answer.status == 201 ==>
      db.admins == old(db.admins) + [Admin(newId, username.value, email.value, hash(password.value), fullName.value,
                                           RoleOrDefault(role), true)]
    ensures answer.status != 201 ==> db.admins == old(db.admins)
    ensures old(AdminsUnique(db.admins)) ==> AdminsUnique(db.admins)
  {
    ghost var checks := CreateAdminChecks(db.admins, username, email, password, fullName);
    if !Truthy(username) || !Truthy(email) || !Truthy(password) || !Truthy(fullName) {
      FirstFailureAt(checks, AdminCreated, 0);
      return Required;
    }
    if JsLength(username.value) < 3 {
      FirstFailureAt(checks, AdminCreated, 1);
      return ShortUsername;
    }
    if !ValidateEmail(email.value) {
      FirstFailureAt(checks, AdminCreated, 2);
      return BadEmail;
    }
    assert username == Some(username.value) && email == Some(email.value) && password == Some(password.value);
    ghost var rest := NewAdminChecks(db.admins, username, email, password);
    assert checks == [checks[0], checks[1], checks[2]] + rest;
    FirstFailureSkip([checks[0], checks[1], checks[2]], rest, AdminCreated);
    answer := InsertAdmin(db, username.value, email.value, password.value, fullName.value, role, newId, hash);
  }

  /** The create-admin handler once the fields have passed: the password must be strong and
      the username and e-mail free; then the admin is appended. */
  method InsertAdmin(db: Db, username: string, email: string, password: string, fullName: string,
                     role: Option<string>, newId: int, hash: string -> string)
    returns (answer: Answer)
    modifies db`admins
    ensures answer == FirstFailure(NewAdminChecks(old(db.admins), Some(username), Some(email), Some(password)), AdminCreated)
    ensures answer.status == 201 ==>
      db.admins == old(db.admins) + [Admin(newId, username, email, hash(password), fullName, RoleOrDefault(role), true)]
    ensures answer.status != 201 ==> db.admins == old(db.admins)
    ensures old(AdminsUnique(db.admins)) ==> AdminsUnique(db.admins)
  {
    ghost var checks := NewAdminChecks(db.admins, Some(username), Some(email), Some(password));
    var strength := ValidatePasswordStrength(password);
    if !strength.isValid {
      FirstFailureAt(checks, AdminCreated, 0);
      return Answer(400, WeakMessage, strength.errors);
    }
    if UsernameTaken(db.admins, username) {
      FirstFailureAt(checks, AdminCreated, 1);
      return UsernameExists;
    }
    if EmailTaken(db.admins, email) {
      FirstFailureAt(checks, AdminCreated, 2);
      return EmailExists;
    }
    FirstFailureAllPass(checks, AdminCreated);
    var admin := Admin(newId, username, email, hash(password), fullName, RoleOrDefault(role), true);
    AppendKeepsUnique(db.admins, admin);
    db.admins := db.admins + [admin];
    answer := AdminCreated;
  }

  /** Appending an administrator whose username and email are unused keeps them unique. */
  lemma AppendKeepsUnique(admins: seq<Admin>, a: Admin)
    requires !UsernameTaken(admins, a.username) && !EmailTaken(admins, a.email)
    ensures AdminsUnique(admins) ==> AdminsUnique(admins + [a])
  {
    var r := admins + [a];
    if AdminsUnique(admins) {
      forall i, j | 0 <= i < j < |r|
        ensures r[i].username != r[j].username && r[i].email != r[j].email
      {
        assert r[i] == admins[i];
        if j < |admins| {
          assert r[j] == admins[j];
        }
      }
    }
  }

  const SelfDelete: Answer := Answer(400, "No puedes eliminar tu propia cuenta", [])
  const AdminMissing: Answer := Answer(404, "Administrador no encontrado", [])
  const AdminDeleted: Answer := Answer(200, "Administrador eliminado exitosamente", [])

  /** `DELETE /auth/admins/:id` by the super administrator `callerId`: deleting oneself is
      refused before the lookup, an unknown id is 404, otherwise the rows with that id go;
      the caller's own row always survives. */
  method DeleteAdmin(db: Db, callerId: int, id: int) returns (answer: Answer)
    modifies db`admins
    ensures id == callerId ==> answer == SelfDelete && db.admins == old(db.admins)
    ensures id != callerId && AdminById(old(db.admins), id).None? ==> answer == AdminMissing && db.admins == old(db.admins)
    ensures id != callerId && AdminById(old(db.admins), id).Some? ==>
      answer == AdminDeleted && db.admins == Select(old(db.admins), (a: Admin) => a.id != id)
    ensures forall a :: a in old(db.admins) && a.id == callerId ==> a in db.admins
  {
    if id == callerId {
      return SelfDelete;
    }
    var admin := AdminById(db.admins, id);
    if admin.None? {
      return AdminMissing;
    }
    db.admins := Select(db.admins, (a: Admin) => a.id != id);
    answer := AdminDeleted;
  }

  // ---------------------------------------------------------------------------
  // Password reset
  // ---------------------------------------------------------------------------

  /** One hour, in milliseconds: how long a reset token is honoured. */
  const HourMs: int := 60 * 60 * 1000

  const EmailRequired: Answer := Answer(400, "Email válido es requerido", [])
  const ResetRequested: Answer := Answer(200, "Si el email existe, recibirás un enlace de recuperación", [])

  /** The only answers `forgot-password` gives: they depend on the email's shape alone. */
  function ForgotPasswordAnswer(email: Option<string>): (a: Answer)
    ensures a == ResetRequested <==> Truthy(email) && ValidateEmail(email.value)
    ensures a == EmailRequired <==> !Truthy(email) || !ValidateEmail(email.value)
  {
    if !Truthy(email) || !ValidateEmail(email.value) then EmailRequired else ResetRequested
  }

  /** The active admin `WHERE email = ? AND is_active = 1` yields first. */
  function ActiveAdminByEmail(admins: seq<Admin>, email: string): (r: Option<Admin>)
    ensures r.Some? ==> r.value in admins && r.value.email == email && r.value.isActive
    ensures r.None? ==> forall a :: a in admins ==> !(a.email == email && a.isActive)
  {
    var rows := Select(admins, (a: Admin) => a.email == email && a.isActive);
    if rows != [] then assert rows[0] in rows; GetOne(rows) else GetOne(rows)
  }

  /** `POST /auth/forgot-password`: for an active admin's email a token good for one hour is
      stored; the answer is the same whether or not the email belongs to one. `token` stands
      for the signed token. */
  method ForgotPassword(db: Db, email: Option<string>, now: int, token: string) returns (answer: Answer)
    modifies db`resetTokens
    ensures answer == ForgotPasswordAnswer(email)
    ensures answer == ResetRequested && ActiveAdminByEmail(old(db.admins), email.value).Some? ==>
      db.resetTokens == old(db.resetTokens)
        + [ResetToken(ActiveAdminByEmail(old(db.admins), email.value).value.id, token, now + HourMs, false)]
    ensures !(answer == ResetRequested && ActiveAdminByEmail(old(db.admins), email.value).Some?) ==>
      db.resetTokens == old(db.resetTokens)
  {
    if !Truthy(email) || !ValidateEmail(email.value) {
      return EmailRequired;
    }
    var admin := ActiveAdminByEmail(db.admins, email.value);
    if admin.None? {
      return ResetRequested;
    }
    db.resetTokens := db.resetTokens + [ResetToken(admin.value.id, token, now + HourMs, false)];
    answer := ResetRequested;
  }

  /** What `jwt.verify` makes of a reset token: its `type` claim, or the error it throws. */
  datatype ResetClaims = ResetDecoded(kind: string) | ResetExpired | ResetMalformed | ResetFailed

  /** The row `WHERE token = ? AND expires_at > NOW() AND used = 0` yields first. */
  function LiveToken(tokens: seq<ResetToken>, token: string, now: int): (r: Option<ResetToken>)
    ensures r.Some? ==> r.value in tokens && r.value.token == token && r.value.expiresAt > now && !r.value.used
    ensures r.None? <==> forall t :: t in tokens ==> !(t.token == token && t.expiresAt > now && !t.used)
  {
    var rows := Select(tokens, (t: ResetToken) => t.token == token && t.expiresAt > now && !t.used);
    if rows != [] then assert rows[0] in rows; GetOne(rows) else GetOne(rows)
  }

  /** `UPDATE password_reset_tokens SET used = 1 WHERE token = ?`. */
  function MarkUsed(tokens: seq<ResetToken>, token: string): (r: seq<ResetToken>)
    ensures |r| == |tokens|
    ensures forall i :: 0 <= i < |tokens| ==> r[i] == if tokens[i].token == token then tokens[i].(used := true) else tokens[i]
  {
    seq(|tokens|, i requires 0 <= i < |tokens| => if tokens[i].token == token then tokens[i].(used := true) else tokens[i])
  }

  const ResetKind: string := "password_reset"
  const TokenExpired: Answer := Answer(400, "Token expirado", [])
  const TokenInvalid: Answer := Answer(400, "Token inválido", [])
  const ResetError: Answer := Answer(500, "Error actualizando contraseña", [])
  const TokenDead: Answer := Answer(400, "Token inválido o expirado", [])
  const PasswordReset: Answer := Answer(200, "Contraseña actualizada exitosamente", [])

  /** The checks on the request body: all three fields, new equals confirmation, a strong
      password. */
  function ResetFieldChecks(token: Option<string>, newPassword: Option<string>, confirm: Option<string>): seq<Check> {
    [ Check(Truthy(token) && Truthy(newPassword) && Truthy(confirm), Required),
      Check(newPassword == confirm, Mismatch),
      Check(Strong(newPassword), Answer(400, WeakMessage, StrengthErrors(newPassword))) ]
  }

  /** The checks on the token: `jwt.verify` accepts it as a reset token, and a live row
      holds it. */
  function TokenChecks(tokens: seq<ResetToken>, token: string, now: int, claims: ResetClaims): seq<Check> {
    [ Check(!claims.ResetExpired?, TokenExpired),
      Check(!claims.ResetMalformed?, TokenInvalid),
      Check(!claims.ResetFailed?, ResetError),
      Check(claims.ResetDecoded? && claims.kind == ResetKind, TokenInvalid),
      Check(LiveToken(tokens, token, now).Some?, TokenDead) ]
  }

  /** Every check of `reset-password`, in the order the handler runs them. */
  function ResetChecks(tokens: seq<ResetToken>, token: Option<string>, newPassword: Option<string>,
                       confirm: Option<string>, now: int, verify: string -> ResetClaims): seq<Check>
  {
    var t := if token.Some? then token.value else "";
    ResetFieldChecks(token, newPassword, confirm) + TokenChecks(tokens, t, now, if token.Some? then verify(t) else ResetMalformed)
  }

  /** A chain whose first part passes answers what its second part answers. */
  lemma {:induction false} FirstFailureSkip(a: seq<Check>, b: seq<Check>, success: Answer)
    requires forall i :: 0 <= i < |a| ==> a[i].pass
    ensures FirstFailure(a + b, success) == FirstFailure(b, success)
  {
    if a != [] {
      assert (a + b)[0] == a[0] && a[0].pass;
      assert (a + b)[1..] == a[1..] + b;
      FirstFailureSkip(a[1..], b, success);
    } else {
      assert a + b == b;
    }
  }

  /** `POST /auth/reset-password`: when every check passes, the token's admin gets the new
      password and every row of the token is marked used; otherwise nothing changes. */
  method ResetPassword(db: Db, token: Option<string>, newPassword: Option<string>, confirm: Option<string>,
                       now: int, verify: string -> ResetClaims, hash: string -> string)
    returns (answer: Answer)
    modifies db`admins, db`resetTokens
    ensures answer == FirstFailure(ResetChecks(old(db.resetTokens), token, newPassword, confirm, now, verify), PasswordReset)
    ensures answer.status == 200 ==>
      && token.Some? && newPassword.Some? && LiveToken(old(db.resetTokens), token.value, now).Some?
      && db.admins == SetPassword(old(db.admins), LiveToken(old(db.resetTokens), token.value, now).value.adminId,
                                  hash(newPassword.value))
      && db.resetTokens == MarkUsed(old(db.resetTokens), token.value)
    ensures answer.status != 200 ==> db.admins == old(db.admins) && db.resetTokens == old(db.resetTokens)
  {
    ghost var fields := ResetFieldChecks(token, newPassword, confirm);
    ghost var checks := ResetChecks(db.resetTokens, token, newPassword, confirm, now, verify);
    assert checks[..3] == fields;
    if !Truthy(token) || !Truthy(newPassword) || !Truthy(confirm) {
      FirstFailureAt(checks, PasswordReset, 0);
      return Required;
    }
    if newPassword != confirm {
      FirstFailureAt(checks, PasswordReset, 1);
      return Mismatch;
    }
    var strength := ValidatePasswordStrength(newPassword.value);
    if !strength.isValid {
      FirstFailureAt(checks, PasswordReset, 2);
      return Answer(400, WeakMessage, strength.errors);
    }
    FirstFailureSkip(fields, TokenChecks(db.resetTokens, token.value, now, verify(token.value)), PasswordReset);
    answer := RedeemToken(db, token.value, newPassword.value, now, verify(token.value), hash);
  }

  /** The token half of `reset-password`, for a request whose fields have passed. */
  method RedeemToken(db: Db, token: string, newPassword: string, now: int, claims: ResetClaims, hash: string -> string)
    returns (answer: Answer)
    modifies db`admins, db`resetTokens
    ensures answer == FirstFailure(TokenChecks(old(db.resetTokens), token, now, claims), PasswordReset)
    ensures answer.status == 200 ==>
      && LiveToken(old(db.resetTokens), token, now).Some?
      && db.admins == SetPassword(old(db.admins), LiveToken(old(db.resetTokens), token, now).value.adminId, hash(newPassword))
      && db.resetTokens == MarkUsed(old(db.resetTokens), token)
    ensures answer.status != 200 ==> db.admins == old(db.admins) && db.resetTokens == old(db.resetTokens)
  {
    ghost var checks := TokenChecks(db.resetTokens, token, now, claims);
    if claims.ResetExpired? {
      FirstFailureAt(checks, PasswordReset, 0);
      return TokenExpired;
    }
    if claims.ResetMalformed? {
      FirstFailureAt(checks, PasswordReset, 1);
      return TokenInvalid;
    }
    if claims.ResetFailed? {
      FirstFailureAt(checks, PasswordReset, 2);
      return ResetError;
    }
    if claims.kind != ResetKind {
      FirstFailureAt(checks, PasswordReset, 3);
      return TokenInvalid;
    }
    var row := LiveToken(db.resetTokens, token, now);
    if row.None? {
      FirstFailureAt(checks, PasswordReset, 4);
      return TokenDead;
    }
    FirstFailureAllPass(checks, PasswordReset);
    db.admins := SetPassword(db.admins, row.value.adminId, hash(newPassword));
    db.resetTokens := MarkUsed(db.resetTokens, token);
    answer := PasswordReset;
  }

  /** Once a token has been used it is never live again, at any time. */
  lemma UsedTokenIsDead(tokens: seq<ResetToken>, token: string, later: int)
    ensures LiveToken(MarkUsed(tokens, token), token, later).None?
  {
    var r := MarkUsed(tokens, token);
    forall t | t in r
      ensures !(t.token == token && t.expiresAt > later && !t.used)
    {
      var i :| 0 <= i < |r| && r[i] == t;
    }
  }

  /** A second reset with a token that has already been honoured is refused. */
  lemma SecondResetRefused(tokens: seq<ResetToken>, token: string, newPassword: Option<string>,
                           confirm: Option<string>, later: int, verify: string -> ResetClaims)
    ensures FirstFailure(ResetChecks(MarkUsed(tokens, token), Some(token), newPassword, confirm, later, verify), PasswordReset).status != 200
  {
    var checks := ResetChecks(MarkUsed(tokens, token), Some(token), newPassword, confirm, later, verify);
    UsedTokenIsDead(tokens, token, later);
    assert !checks[7].pass;
    FirstFailureRefuses(checks, PasswordReset, 7);
  }

  /** A token `forgot-password` has just issued is live for one hour and dead afterwards. */
  lemma IssuedTokenLivesOneHour(tokens: seq<ResetToken>, adminId: int, token: string, issued: int, now: int)
    requires forall t :: t in tokens ==> t.token != token
    ensures LiveToken(tokens + [ResetToken(adminId, token, issued + HourMs, false)], token, now).Some? <==> now < issued + HourMs
  {
    var row := ResetToken(adminId, token, issued + HourMs, false);
    var r := tokens + [row];
    assert row in r;
    assert forall i :: 0 <= i < |tokens| ==> r[i] == tokens[i] && tokens[i] in tokens;
    assert forall t :: t in r && t.token == token ==> t == row;
  }
}
