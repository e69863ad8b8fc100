/** The authentication middleware: the per-IP login throttle, the bearer-token check, the
    role gates, and the validators and sanitiser the route handlers call. */
module AuthMiddleware {
  import opened Js
  import opened Tables
  import Database

  /** What a middleware does with a request: hand it on, or answer it. */
  datatype Gate = Next | Halt(status: nat, message: string)

  // ---------------------------------------------------------------------------
  // Login throttle
  // ---------------------------------------------------------------------------

  /** Fifteen minutes, in milliseconds. */
  const WindowMs: int := 15 * 60 * 1000
  const MaxAttempts: nat := 5

  /** The `{count, firstAttempt}` record kept per IP. */
  datatype Attempt = Attempt(count: nat, firstAttempt: int)

  /** The record `checkLoginAttempts(ip)` returns at time `now`: the stored one, or a fresh
      zero record for an unknown IP, reset to zero when its window has run out. */
  function Checked(m: map<string, Attempt>, ip: string, now: int): (a: Attempt)
    ensures ip !in m ==> a == Attempt(0, now)
    ensures ip in m && now - m[ip].firstAttempt > WindowMs ==> a == Attempt(0, now)
    ensures ip in m && now - m[ip].firstAttempt <= WindowMs ==> a == m[ip]
    ensures now - a.firstAttempt <= WindowMs
  {
    var stored := if ip in m then m[ip] else Attempt(0, now);
    if now - stored.firstAttempt > WindowMs then Attempt(0, now) else stored
  }

  /** The table after `checkLoginAttempts`: the stored record is reset in place when its
      window has run out; an unknown IP is not stored. */
  function AfterCheck(m: map<string, Attempt>, ip: string, now: int): (r: map<string, Attempt>)
    ensures r.Keys == m.Keys
    ensures forall k :: k in m && k != ip ==> r[k] == m[k]
    ensures ip in m ==> r[ip] == Checked(m, ip, now)
  {
    if ip in m then m[ip := Checked(m, ip, now)] else m
  }

  /** The table after `incrementLoginAttempts`. */
  function AfterIncrement(m: map<string, Attempt>, ip: string, now: int): (r: map<string, Attempt>)
    ensures r.Keys == m.Keys + {ip}
    ensures forall k :: k in m && k != ip ==> r[k] == m[k]
    ensures r[ip].count == Checked(m, ip, now).count + 1
    ensures Checked(r, ip, now).count == Checked(m, ip, now).count + 1
  {
    var a := Checked(m, ip, now);
    m[ip := Attempt(a.count + 1, a.firstAttempt)]
  }

  /** `isLoginBlocked(ip)` at time `now`. */
  function Blocked(m: map<string, Attempt>, ip: string, now: int): (b: bool)
    ensures b <==> ip in m && now - m[ip].firstAttempt <= WindowMs && m[ip].count >= MaxAttempts
  {
    Checked(m, ip, now).count >= MaxAttempts
  }

  /** The table after one failed login per time in `times`, in order. */
  function Increments(m: map<string, Attempt>, ip: string, times: seq<int>): map<string, Attempt>
    decreases |times|
  {
    if times == [] then m else Increments(AfterIncrement(m, ip, times[0]), ip, times[1..])
  }

  /** Failures inside the window of a stored record accumulate on it. */
  lemma {:induction false} IncrementsAccumulate(m: map<string, Attempt>, ip: string, times: seq<int>)
    requires ip in m
    requires forall i :: 0 <= i < |times| ==> times[i] - m[ip].firstAttempt <= WindowMs
    ensures ip in Increments(m, ip, times)
    ensures Increments(m, ip, times)[ip] == Attempt(m[ip].count + |times|, m[ip].firstAttempt)
  {
    if times != [] {
      var m1 := AfterIncrement(m, ip, times[0]);
      assert m1[ip] == Attempt(m[ip].count + 1, m[ip].firstAttempt);
      IncrementsAccumulate(m1, ip, times[1..]);
    }
  }

  /** An IP that fails five times within fifteen minutes of its first failure is blocked for
      the rest of that window. */
  lemma BlockedAfterFiveFailures(m: map<string, Attempt>, ip: string, times: seq<int>, now: int)
    requires ip !in m && |times| == 5
    requires forall i :: 0 <= i < 5 ==> times[0] <= times[i] <= times[0] + WindowMs
    requires times[0] <= now <= times[0] + WindowMs
    ensures Blocked(Increments(m, ip, times), ip, now)
  {
    var m1 := AfterIncrement(m, ip, times[0]);
    assert m1[ip] == Attempt(1, times[0]);
    IncrementsAccumulate(m1, ip, times[1..]);
  }

  /** Four failures are not enough to block. */
  lemma NotBlockedAfterFourFailures(m: map<string, Attempt>, ip: string, times: seq<int>, now: int)
    requires ip !in m && |times| == 4
    requires forall i :: 0 <= i < 4 ==> times[0] <= times[i] <= times[0] + WindowMs
    ensures !Blocked(Increments(m, ip, times), ip, now)
  {
    var m1 := AfterIncrement(m, ip, times[0]);
    assert m1[ip] == Attempt(1, times[0]);
    IncrementsAccumulate(m1, ip, times[1..]);
  }

  /** Once fifteen minutes have passed since the first failure, the IP is admitted again. */
  lemma UnblockedAfterWindow(m: map<string, Attempt>, ip: string, now: int)
    requires ip in m && now - m[ip].firstAttempt > WindowMs
    ensures !Blocked(m, ip, now) && Checked(m, ip, now) == Attempt(0, now)
  {
  }

  /** The module-level `loginAttempts` Map. */
  class LoginThrottle {
    var attempts: map<string, Attempt>

    constructor ()
      ensures attempts == map[]
    {
      attempts := map[];
    }

    /** `checkLoginAttempts(ip)`. */
    method CheckLoginAttempts(ip: string, now: int) returns (a: Attempt)
      modifies this
      ensures a == Checked(old(attempts), ip, now)
      ensures attempts == AfterCheck(old(attempts), ip, now)
    {
      var stored := if ip in attempts then attempts[ip] else Attempt(0, now);
      a := stored;
      if now - a.firstAttempt > WindowMs {
        a := Attempt(0, now);
        if ip in attempts {
          attempts := attempts[ip := a];
        }
      }
    }

    /** `incrementLoginAttempts(ip)`: one more failure in the current window, stored. */
    method IncrementLoginAttempts(ip: string, now: int)
      modifies this
      ensures attempts == AfterIncrement(old(attempts), ip, now)
    {
      var a := CheckLoginAttempts(ip, now);
      attempts := attempts[ip := Attempt(a.count + 1, a.firstAttempt)];
    }

    /** `isLoginBlocked(ip)`. */
    method IsLoginBlocked(ip: string, now: int) returns (blocked: bool)
      modifies this
      ensures blocked == Blocked(old(attempts), ip, now)
      ensures attempts == AfterCheck(old(attempts), ip, now)
    {
      var a := CheckLoginAttempts(ip, now);
      blocked := a.count >= MaxAttempts;
    }

    /** The timer that drops an IP's record fifteen minutes after a failure. */
    method Expire(ip: string)
      modifies this
      ensures attempts == old(attempts) - {ip}
    {
      attempts := attempts - {ip};
    }

    /** `bruteForceProtection`: 429 while the IP is blocked, otherwise on to the handler. */
    method BruteForceProtection(ip: string, now: int) returns (g: Gate)
      modifies this
      ensures Blocked(old(attempts), ip, now) ==> g == Halt(429, "Demasiados intentos de login. Intenta de nuevo en 15 minutos.")
      ensures !Blocked(old(attempts), ip, now) ==> g == Next
      ensures attempts == AfterCheck(old(attempts), ip, now)
    {
      var blocked := IsLoginBlocked(ip, now);
      if blocked {
        return Halt(429, "Demasiados intentos de login. Intenta de nuevo en 15 minutos.");
      }
      g := Next;
    }
  }

  /** A check never changes what a later check reports: resetting an expired record in place
      gives the same answer the expired record gives. */
  lemma CheckIsStable(m: map<string, Attempt>, ip: string, now: int)
    ensures Checked(AfterCheck(m, ip, now), ip, now) == Checked(m, ip, now)
    ensures Blocked(AfterCheck(m, ip, now), ip, now) == Blocked(m, ip, now)
  {
  }

  // ---------------------------------------------------------------------------
  // Bearer token and role gates
  // ---------------------------------------------------------------------------

  /** `req.user` as `verifyToken` attaches it. */
  datatype User = User(id: int, username: string, email: string, fullName: string, role: string)

  /** What `jwt.verify` does with a token: a payload carrying an admin id, or one of its errors. */
  datatype JwtOutcome = Decoded(id: int) | TokenExpiredError | JsonWebTokenError | OtherError

  datatype AuthResult = Authenticated(user: User) | Rejected(status: nat, message: string)

  const BearerPrefix: string := "Bearer "

  /** The token `verifyToken` takes out of the Authorization header: the header minus its
      first seven characters, when it starts with `Bearer `. */
  function BearerToken(header: Option<string>): (t: Option<string>)
    ensures t.Some? <==> header.Some? && StartsWith(header.value, BearerPrefix)
    ensures t.Some? ==> header.value == BearerPrefix + t.value
  {
    if header.Some? && StartsWith(header.value, BearerPrefix) then
      assert header.value == header.value[..7] + header.value[7..];
      Some(header.value[7..])
    else None
  }

  function UserOf(a: Admin): User {
    User(a.id, a.username, a.email, a.fullName, a.role)
  }

  const TokenRequired: string := "Token de acceso requerido"
  const TokenInvalid: string := "Token inválido"
  const TokenExpired: string := "Token expirado"
  const UserInactive: string := "Usuario no encontrado o inactivo"
  const InternalError: string := "Error interno del servidor"

  /** Some active admin has the id a token carries. */
  predicate ActiveAdmin(admins: seq<Admin>, id: int) {
    exists a :: a in admins && a.isActive && a.id == id
  }

  /** `verifyToken`, with `jwt.verify` as the parameter `verify`. A request is authenticated
      exactly when its header carries a non-empty Bearer token that verifies to the id of an
      active admin; each way of failing has its own answer. */
  function VerifyToken(header: Option<string>, verify: string -> JwtOutcome, admins: seq<Admin>): (r: AuthResult)
    ensures BearerToken(header).None? ==> r == Rejected(401, TokenRequired)
    ensures BearerToken(header) == Some("") ==> r == Rejected(401, TokenInvalid)
    ensures BearerToken(header).Some? && BearerToken(header).value != "" ==>
      var outcome := verify(BearerToken(header).value);
      && (outcome.TokenExpiredError? ==> r == Rejected(401, TokenExpired))
      && (outcome.JsonWebTokenError? ==> r == Rejected(401, TokenInvalid))
      && (outcome.OtherError? ==> r == Rejected(500, InternalError))
      && (outcome.Decoded? && !ActiveAdmin(admins, outcome.id) ==> r == Rejected(401, UserInactive))
    ensures r.Authenticated? <==>
      && BearerToken(header).Some? && BearerToken(header).value != ""
      && verify(BearerToken(header).value).Decoded?
      && ActiveAdmin(admins, verify(BearerToken(header).value).id)
    ensures r.Authenticated? ==>
      && verify(BearerToken(header).value) == Decoded(r.user.id)
      && exists a :: a in admins && a.isActive && a.id == r.user.id && r.user == UserOf(a)
  {
    match BearerToken(header)
    case None => Rejected(401, TokenRequired)
    case Some(token) =>
      if token == "" then Rejected(401, TokenInvalid)
      else
        match verify(token)
        case Decoded(id) =>
          var rows := Database.Select(admins, (a: Admin) => a.id == id && a.isActive);
          var found := Database.GetOne(rows);
          if found.None? then
            assert !ActiveAdmin(admins, id);
            Rejected(401, UserInactive)
          else
            Authenticated(UserOf(found.value))
        case TokenExpiredError => Rejected(401, TokenExpired)
        case JsonWebTokenError => Rejected(401, TokenInvalid)
        case OtherError => Rejected(500, InternalError)
  }

  /** A header `Bearer <t>` hands exactly `t` to the verifier. */
  lemma BearerTokenOfHeader(token: string)
    ensures BearerToken(Some(BearerPrefix + token)) == Some(token)
  {
    assert (BearerPrefix + token)[..7] == BearerPrefix;
    assert (BearerPrefix + token)[7..] == token;
  }

  /** A request sending `Bearer <t>` for a token that verifies to an active admin's id is
      let through as that admin. */
  lemma ActiveAdminTokenAccepted(token: string, verify: string -> JwtOutcome, admins: seq<Admin>, a: Admin)
    requires token != "" && a in admins && a.isActive && verify(token) == Decoded(a.id)
    requires forall b :: b in admins && b.id == a.id ==> b == a
    ensures VerifyToken(Some(BearerPrefix + token), verify, admins) == Authenticated(UserOf(a))
  {
    BearerTokenOfHeader(token);
  }

  /** `requireRole(roles)`. */
  function RequireRole(user: Option<User>, roles: seq<string>): (g: Gate)
    ensures user.None? ==> g == Halt(401, "Autenticación requerida")
    ensures user.Some? && user.value.role !in roles ==> g == Halt(403, "Acceso denegado. Permisos insuficientes.")
    ensures g == Next <==> user.Some? && user.value.role in roles
  {
    if user.None? then Halt(401, "Autenticación requerida")
    else if user.value.role !in roles then Halt(403, "Acceso denegado. Permisos insuficientes.")
    else Next
  }

  /** `requireAdmin`: lets through exactly the `admin` and `super_admin` roles. */
  function RequireAdmin(user: Option<User>): (g: Gate)
    ensures g == Next <==> user.Some? && (user.value.role == "admin" || user.value.role == "super_admin")
  {
    RequireRole(user, ["admin", "super_admin"])
  }

  /** `requireSuperAdmin`: lets through only the `super_admin` role. */
  function RequireSuperAdmin(user: Option<User>): (g: Gate)
    ensures g == Next <==> user.Some? && user.value.role == "super_admin"
  {
    RequireRole(user, ["super_admin"])
  }

  /** `canAccessResource(user, resourceOwnerId)`; `===` compares the id with the owner as
      JavaScript values, so a string owner never matches a numeric id. */
  function CanAccessResource(user: Option<User>, owner: Value): (b: bool)
    ensures user.None? ==> !b
    ensures user.Some? && (user.value.role == "super_admin" || user.value.role == "admin") ==> b
    ensures user.Some? && user.value.role != "super_admin" && user.value.role != "admin" ==>
      (b <==> owner == Int(user.value.id))
  {
    if user.None? then false
    else if user.value.role == "super_admin" then true
    else if user.value.role == "admin" then true
    else owner == Int(user.value.id)
  }

  // ---------------------------------------------------------------------------
  // Password strength
  // ---------------------------------------------------------------------------

  /** The five checks, in the order they run. */
  datatype PasswordRule = MinLength | HasUpper | HasLower | HasDigit | HasSpecial

  const PasswordRules: seq<PasswordRule> := [MinLength, HasUpper, HasLower, HasDigit, HasSpecial]

  predicate IsSpecial(c: char) {
    c in "!@#$%^&*(),.?\":{}|<>"
  }

  predicate Satisfies(p: string, rule: PasswordRule) {
    match rule
    case MinLength => JsLength(p) >= 8
    case HasUpper => exists i :: 0 <= i < |p| && 'A' <= p[i] <= 'Z'
    case HasLower => exists i :: 0 <= i < |p| && 'a' <= p[i] <= 'z'
    case HasDigit => exists i :: 0 <= i < |p| && IsDigit(p[i])
    case HasSpecial => exists i :: 0 <= i < |p| && IsSpecial(p[i])
  }

  /** The length rule counts UTF-16 code units, as `password.length` does: four characters
      outside the Basic Multilingual Plane already meet the minimum of 8. */
  lemma AstralPasswordMeetsLength(p: string)
    requires |p| >= 4 && forall i :: 0 <= i < |p| ==> p[i] as int >= 0x1_0000
    ensures Satisfies(p, MinLength)
  {
    AstralLength(p);
  }


  function RuleMessage(rule: PasswordRule): string {
    match rule
    case MinLength => TooShortMessage
    case HasUpper => NoUpperMessage
    case HasLower => NoLowerMessage
    case HasDigit => NoDigitMessage
    case HasSpecial => NoSpecialMessage
  }

  const TooShortMessage: string := "La contraseña debe tener al menos 8 caracteres"
  const NoUpperMessage: string := "La contraseña debe contener al menos una letra mayúscula"
  const NoLowerMessage: string := "La contraseña debe contener al menos una letra minúscula"
  const NoDigitMessage: string := "La contraseña debe contener al menos un número"
  const NoSpecialMessage: string := "La contraseña debe contener al menos un carácter especial"

  /** The message of `rule` when `p` fails it. */
  function Failing(p: string, rule: PasswordRule): seq<string> {
    if Satisfies(p, rule) then [] else [RuleMessage(rule)]
  }

  /** The messages of the rules in `rules` that `p` fails, in order. */
  function FailedMessages(p: string, rules: seq<PasswordRule>): seq<string> {
    if rules == [] then [] else FailedMessages(p, rules[..|rules| - 1]) + Failing(p, rules[|rules| - 1])
  }

  datatype Strength = Strength(isValid: bool, errors: seq<string>)

  /** `validatePasswordStrength`: each check that fails pushes its message, in the order the
      checks run. */
  function ValidatePasswordStrength(p: string): (r: Strength)
    ensures r.isValid <==> r.errors == []
    ensures r.errors == FailedMessages(p, PasswordRules)
  {
    var errors := (if JsLength(p) < 8 then [RuleMessage(MinLength)] else [])
      + (if !Satisfies(p, HasUpper) then [RuleMessage(HasUpper)] else [])
      + (if !Satisfies(p, HasLower) then [RuleMessage(HasLower)] else [])
      + (if !Satisfies(p, HasDigit) then [RuleMessage(HasDigit)] else [])
      + (if !Satisfies(p, HasSpecial) then [RuleMessage(HasSpecial)] else []);
    UnfoldFailedMessages(p);
    Strength(|errors| == 0, errors)
  }

  lemma UnfoldFailedMessages(p: string)
    ensures FailedMessages(p, PasswordRules)
      == Failing(p, MinLength) + Failing(p, HasUpper) + Failing(p, HasLower) + Failing(p, HasDigit) + Failing(p, HasSpecial)
  {
    FailedMessagesOfFive(p, MinLength, HasUpper, HasLower, HasDigit, HasSpecial);
  }

  lemma FailedMessagesOfFive(p: string, a: PasswordRule, b: PasswordRule, c: PasswordRule, d: PasswordRule, e: PasswordRule)
    ensures FailedMessages(p, [a, b, c, d, e])
      == Failing(p, a) + Failing(p, b) + Failing(p, c) + Failing(p, d) + Failing(p, e)
  {
    var rs := [a, b, c, d, e];
    assert rs[..4] == [a, b, c, d] && rs[..4][..3] == [a, b, c];
    assert rs[..4][..3][..2] == [a, b] && rs[..4][..3][..2][..1] == [a];
    assert [a][..0] == [];
    assert FailedMessages(p, [a]) == Failing(p, a);
    assert FailedMessages(p, [a, b]) == Failing(p, a) + Failing(p, b);
    assert FailedMessages(p, [a, b, c]) == Failing(p, a) + Failing(p, b) + Failing(p, c);
    assert FailedMessages(p, [a, b, c, d]) == Failing(p, a) + Failing(p, b) + Failing(p, c) + Failing(p, d);
  }

  lemma FailingCount(p: string, r: PasswordRule, rule: PasswordRule)
    ensures multiset(Failing(p, r))[RuleMessage(rule)] == if r == rule && !Satisfies(p, rule) then 1 else 0
  {
    if r != rule {
      RuleMessageInjective(r, rule);
    }
  }

  lemma RuleMessageInjective(a: PasswordRule, b: PasswordRule)
    requires a != b
    ensures RuleMessage(a) != RuleMessage(b)
  {
    var ma, mb := RuleMessage(a), RuleMessage(b);
    if |ma| == |mb| {
      // Messages of equal length differ in the word that names the requirement.
      if |ma| == 46 {
        assert ma[19] != mb[19];
      } else {
        assert ma[48] != mb[48];
      }
    }
  }

  /** The password is strong exactly when it passes all five checks. */
  lemma PasswordValidIffAllChecks(p: string)
    ensures ValidatePasswordStrength(p).isValid <==> forall rule :: Satisfies(p, rule)
  {
    UnfoldFailedMessages(p);
    if forall rule :: Satisfies(p, rule) {
      assert Satisfies(p, MinLength) && Satisfies(p, HasUpper) && Satisfies(p, HasLower);
      assert Satisfies(p, HasDigit) && Satisfies(p, HasSpecial);
    } else {
      var rule :| !Satisfies(p, rule);
      assert Failing(p, rule) != [];
    }
  }

  /** Each failing check contributes its message exactly once, and a passing one not at all. */
  lemma PasswordErrorsOncePerFailure(p: string, rule: PasswordRule)
    ensures multiset(ValidatePasswordStrength(p).errors)[RuleMessage(rule)] == if Satisfies(p, rule) then 0 else 1
  {
    UnfoldFailedMessages(p);
    var m := RuleMessage(rule);
    var a, b, c, d, e := Failing(p, MinLength), Failing(p, HasUpper), Failing(p, HasLower), Failing(p, HasDigit), Failing(p, HasSpecial);
    assert multiset(a + b + c + d + e) == multiset(a) + multiset(b) + multiset(c) + multiset(d) + multiset(e);
    FailingCount(p, MinLength, rule);
    FailingCount(p, HasUpper, rule);
    FailingCount(p, HasLower, rule);
    FailingCount(p, HasDigit, rule);
    FailingCount(p, HasSpecial, rule);
  }

  // ---------------------------------------------------------------------------
  // Email shape
  // ---------------------------------------------------------------------------

  predicate EmailChar(c: char) {
    !IsSpace(c) && c != '@'
  }

  /** A run matched by `[^\s@]+`. */
  predicate EmailPart(s: string) {
    s != [] && forall i :: 0 <= i < |s| ==> EmailChar(s[i])
  }

  /** What follows the `@` in `[^\s@]+\.[^\s@]+`. */
  predicate EmailDomain(d: string) {
    exists j :: 0 < j < |d| && DotAt(d, j)
  }

  /** `d` splits at a `.` at `j` into two runs of `[^\s@]+`. */
  predicate DotAt(d: string, j: int) {
    0 < j < |d| - 1 && d[j] == '.' && EmailPart(d[..j]) && EmailPart(d[j + 1..])
  }

  /** `e` splits at an `@` at `k` into a run of `[^\s@]+` and a domain. */
  predicate AtSignAt(e: string, k: int) {
    0 < k < |e| && e[k] == '@' && EmailPart(e[..k]) && EmailDomain(e[k + 1..])
  }

  /** `validateEmail`: the test of `/^[^\s@]+@[^\s@]+\.[^\s@]+$/`. */
  predicate ValidateEmail(e: string) {
    exists k :: 0 < k < |e| && AtSignAt(e, k)
  }

  /** Any address put together from three clean parts is accepted. */
  lemma EmailFromParts(local: string, host: string, tld: string)
    requires EmailPart(local) && EmailPart(host) && EmailPart(tld)
    ensures ValidateEmail(local + "@" + host + "." + tld)
  {
    var e := local + "@" + host + "." + tld;
    var k := |local|;
    var d := host + "." + tld;
    assert e[..k] == local;
    assert e[k + 1..] == d;
    assert d[..|host|] == host && d[|host| + 1..] == tld;
    assert DotAt(d, |host|);
    assert AtSignAt(e, k);
  }

  /** Every accepted address splits into three clean parts around one `@` and a `.`. */
  lemma EmailSplit(e: string) returns (local: string, host: string, tld: string)
    requires ValidateEmail(e)
    ensures EmailPart(local) && EmailPart(host) && EmailPart(tld)
    ensures e == local + "@" + host + "." + tld
  {
    var k :| 0 < k < |e| && AtSignAt(e, k);
    var d := e[k + 1..];
    var j :| 0 < j < |d| && DotAt(d, j);
    local, host, tld := e[..k], d[..j], d[j + 1..];
    SplitAround(e, k, '@');
    SplitAround(d, j, '.');
    JoinAround(local, host, tld, d);
  }

  lemma SplitAround(s: string, k: int, c: char)
    requires 0 <= k < |s| && s[k] == c
    ensures s == s[..k] + [c] + s[k + 1..]
  {
  }

  lemma JoinAround(local: string, host: string, tld: string, d: string)
    requires d == host + "." + tld
    ensures local + "@" + d == local + "@" + host + "." + tld
  {
  }

  /** An accepted address holds exactly one `@`. */
  lemma ValidEmailOneAtSign(e: string)
    requires ValidateEmail(e)
    ensures CountChar(e, '@') == 1
  {
    var local, host, tld := EmailSplit(e);
    NoAtCount(local);
    NoAtCount(host);
    NoAtCount(tld);
    CountCharConcat(local, "@", '@');
    CountCharConcat(local + "@", host, '@');
    CountCharConcat(local + "@" + host, ".", '@');
    CountCharConcat(local + "@" + host + ".", tld, '@');
  }

  /** An accepted address holds no whitespace. */
  lemma ValidEmailNoSpace(e: string)
    requires ValidateEmail(e)
    ensures forall i :: 0 <= i < |e| ==> !IsSpace(e[i])
  {
    var local, host, tld := EmailSplit(e);
    forall i | 0 <= i < |e| ensures !IsSpace(e[i]) {
      var a, h := |local|, |local| + 1 + |host|;
      if i < a {
        assert e[i] == local[i];
      } else if i == a || i == h {
      } else if i < h {
        assert e[i] == host[i - a - 1];
      } else {
        assert e[i] == tld[i - h - 1];
      }
    }
  }

  lemma {:induction false} NoAtCount(s: string)
    requires EmailPart(s)
    ensures CountChar(s, '@') == 0
  {
    if |s| > 1 {
      NoAtCount(s[1..]);
    } else {
      assert CountChar(s[1..], '@') == 0;
    }
  }

  // ---------------------------------------------------------------------------
  // Input sanitising
  // ---------------------------------------------------------------------------

  /** `.replace(/[<>]/g, '')`. */
  function StripAngles(s: string): (r: string)
    ensures |r| <= |s|
    ensures forall c :: c in r <==> c in s && c != '<' && c != '>'
  {
    if s == [] then []
    else (if s[0] == '<' || s[0] == '>' then [] else [s[0]]) + StripAngles(s[1..])
  }

  const JavascriptScheme: string := "javascript:"

  /** `javascript:` starts `s`, in any mix of ASCII case (the only case folding a pattern
      without the `u` flag applies to these letters). */
  predicate JavascriptAt(s: string) {
    |s| >= 11 && Lower(s[..11]) == JavascriptScheme
  }

  predicate HasJavascript(s: string) {
    JavascriptAt(s) || (s != [] && HasJavascript(s[1..]))
  }

  /** `.replace(/javascript:/gi, '')`: one left-to-right pass over non-overlapping matches. */
  function StripJavascript(s: string): (r: string)
    ensures |r| <= |s|
    ensures forall c :: c in r ==> c in s
  {
    if s == [] then []
    else if JavascriptAt(s) then
      var rest := StripJavascript(s[11..]);
      assert forall c :: c in rest ==> c in s by {
        assert forall c :: c in s[11..] ==> c in s;
      }
      rest
    else [s[0]] + StripJavascript(s[1..])
  }

  predicate IsWordChar(c: char) {
    ('a' <= c <= 'z') || ('A' <= c <= 'Z') || IsDigit(c) || c == '_'
  }

  /** The length of the run of `\w` characters at the start of `s`. */
  function WordRun(s: string): (n: nat)
    ensures n <= |s|
    ensures forall i :: 0 <= i < n ==> IsWordChar(s[i])
    ensures n < |s| ==> !IsWordChar(s[n])
  {
    if s != [] && IsWordChar(s[0]) then 1 + WordRun(s[1..]) else 0
  }

  /** `on\w+=` starts `s` (case-insensitively); since `=` is not a word character, a match
      exists exactly when the longest word run after `on` is non-empty and followed by `=`. */
  predicate HandlerAt(s: string) {
    |s| >= 2 && LowerChar(s[0]) == 'o' && LowerChar(s[1]) == 'n'
    && WordRun(s[2..]) >= 1 && 2 + WordRun(s[2..]) < |s| && s[2 + WordRun(s[2..])] == '='
  }

  predicate HasHandler(s: string) {
    HandlerAt(s) || (s != [] && HasHandler(s[1..]))
  }

  /** `.replace(/on\w+=/gi, '')`. */
  function StripHandlers(s: string): (r: string)
    ensures |r| <= |s|
    ensures forall c :: c in r ==> c in s
  {
    if s == [] then []
    else if HandlerAt(s) then
      var n := 3 + WordRun(s[2..]);
      var rest := StripHandlers(s[n..]);
      assert forall c :: c in rest ==> c in s by {
        assert forall c :: c in s[n..] ==> c in s;
      }
      rest
    else [s[0]] + StripHandlers(s[1..])
  }

  /** `sanitizeInput` on a string. */
  function SanitizeString(s: string): (r: string)
    ensures |r| <= |s|
    ensures '<' !in r && '>' !in r
    ensures forall c :: c in r ==> c in s
  {
    StripHandlers(StripJavascript(StripAngles(Trim(s))))
  }

  /** `sanitizeInput`: strings are sanitised, any other value comes back unchanged. */
  function SanitizeInput(v: Value): (r: Value)
    ensures !v.Str? ==> r == v
    ensures v.Str? ==> r.Str? && '<' !in r.s && '>' !in r.s
  {
    if v.Str? then Str(SanitizeString(v.s)) else v
  }

  lemma {:induction false} StripAnglesClean(s: string)
    requires '<' !in s && '>' !in s
    ensures StripAngles(s) == s
  {
    if s != [] {
      StripAnglesClean(s[1..]);
      assert [s[0]] + s[1..] == s;
    }
  }

  lemma {:induction false} StripJavascriptClean(s: string)
    requires !HasJavascript(s)
    ensures StripJavascript(s) == s
  {
    if s != [] {
      StripJavascriptClean(s[1..]);
      assert [s[0]] + s[1..] == s;
    }
  }

  lemma {:induction false} StripHandlersClean(s: string)
    requires !HasHandler(s)
    ensures StripHandlers(s) == s
  {
    if s != [] {
      StripHandlersClean(s[1..]);
      assert [s[0]] + s[1..] == s;
    }
  }

  /** Input with nothing to remove passes through the sanitiser untouched. */
  lemma SanitizeClean(s: string)
    requires s == [] || (!IsSpace(s[0]) && !IsSpace(s[|s| - 1]))
    requires '<' !in s && '>' !in s && !HasJavascript(s) && !HasHandler(s)
    ensures SanitizeString(s) == s
  {
    StripAnglesClean(s);
    StripJavascriptClean(s);
    StripHandlersClean(s);
  }

  lemma StripJavascriptDrop(s: string)
    requires JavascriptAt(s)
    ensures StripJavascript(s) == StripJavascript(s[11..])
  {
  }

  /** A case variant of a word with no whitespace at its ends and no angle brackets is left
      alone by the first two sanitising steps. */
  lemma SpelledSurvivesTrimAndAngles(s: string, w: string)
    requires SpelledAs(s, w) && w != []
    requires !IsSpace(w[0]) && !IsSpace(w[|w| - 1]) && '<' !in w && '>' !in w
    ensures Trim(s) == s && StripAngles(s) == s
  {
    SpelledAsAt(s, w, 0);
    SpelledAsAt(s, w, |w| - 1);
    TrimKeeps(s);
    forall i | 0 <= i < |s| ensures s[i] != '<' && s[i] != '>' {
      SpelledAsAt(s, w, i);
      assert w[i] in w;
    }
    StripAnglesClean(s);
  }

  /** A string that is nothing but the scheme, in any mix of case, loses it entirely. */
  lemma SanitizeDropsScheme(s: string)
    requires SpelledAs(s, JavascriptScheme)
    ensures SanitizeString(s) == ""
  {
    var w := JavascriptScheme;
    assert w[0] == 'j' && w[10] == ':';
    SpelledSurvivesTrimAndAngles(s, w);
    assert s[..11] == s;
    assert Lower(s) == w;
    StripJavascriptDrop(s);
    assert s[11..] == [];
  }

  /** `sanitizeData`: every string field of the body is sanitised; other fields are kept. */
  method SanitizeData(body: map<string, Value>) returns (r: map<string, Value>)
    ensures r.Keys == body.Keys
    ensures forall k :: k in body ==> r[k] == SanitizeInput(body[k])
  {
    r := body;
    var todo := body.Keys;
    while todo != {}
      invariant todo <= body.Keys && r.Keys == body.Keys
      invariant forall k :: k in r ==> r[k] == if k in todo then body[k] else SanitizeInput(body[k])
      decreases todo
    {
      var k :| k in todo;
      if body[k].Str? {
        r := r[k := SanitizeInput(body[k])];
      }
      todo := todo - {k};
    }
  }
}
