/** Accounts (Backend/controllers/userRoutes.js): role resolution at login, the signup and reset
    input checks, signup itself, and the redirect-origin allow-list of the OAuth flow. Password
    hashing and token signing are not modelled; a verified reset token is given as its decoded
    claims. */
module Accounts {
  import opened Http
  import opened Strings
  import opened Js
  import opened MealModel
  import opened KitchenModel
  import opened Records
  import opened AdminAccess

  // ---------------------------------------------------------------- role resolution

  predicate OwnsKitchen(kitchens: map<Id, Kitchen>, userId: Id) {
    exists k :: k in kitchens && kitchens[k].ownerUserId == userId
  }

  /** The role `resolveRoleForUser` settles on: an allow-listed e-mail is `admin` whether or not
      the user owns a kitchen; otherwise a kitchen owner is `kitchen`; everybody else is
      `customer`. */
  function RoleFor(email: string, ownsKitchen: bool, adminEmails: seq<string>): (role: Role)
    ensures role == Admin <==> IsAdminEmail(adminEmails, email)
    ensures role == KitchenRole <==> !IsAdminEmail(adminEmails, email) && ownsKitchen
    ensures role == Customer <==> !IsAdminEmail(adminEmails, email) && !ownsKitchen
  {
    // The handler normalises the e-mail and `isAdminEmail` normalises it again.
    IsAdminEmailOfNormalized(adminEmails, email);
    if IsAdminEmail(adminEmails, NormalizeEmail(email)) then Admin
    else if ownsKitchen then KitchenRole
    else Customer
  }

  /** `resolveRoleForUser(user)`: the user's role becomes the resolved one, written only when it
      differs from the stored role. */
  function ResolveRole(users: map<Id, User>, kitchens: map<Id, Kitchen>, adminEmails: seq<string>, userId: Id): (r: (map<Id, User>, Role))
    requires userId in users
    ensures r.0.Keys == users.Keys && r.0[userId].role == r.1
    ensures forall u :: u in users && u != userId ==> r.0[u] == users[u]
    ensures r.0[userId] == users[userId].(role := r.1)
    ensures users[userId].role == r.1 ==> r.0 == users
  {
    var role := RoleFor(users[userId].email, OwnsKitchen(kitchens, userId), adminEmails);
    if users[userId].role != role then (users[userId := users[userId].(role := role)], role)
    else (users, role)
  }

  /** A second resolution finds nothing to write. */
  lemma ResolveRoleIdempotent(users: map<Id, User>, kitchens: map<Id, Kitchen>, adminEmails: seq<string>, userId: Id)
    requires userId in users
    ensures var once := ResolveRole(users, kitchens, adminEmails, userId);
            ResolveRole(once.0, kitchens, adminEmails, userId) == once
  {
    var once := ResolveRole(users, kitchens, adminEmails, userId);
    assert once.0[userId].email == users[userId].email;
  }

  // ---------------------------------------------------------------- e-mail pattern

  /** `[a-zA-Z0-9._%+-]`. */
  predicate LocalChar(c: char) {
    IsAsciiLetter(c) || IsDigit(c) || c == '.' || c == '_' || c == '%' || c == '+' || c == '-'
  }

  /** `[a-zA-Z0-9.-]`. */
  predicate DomainChar(c: char) {
    IsAsciiLetter(c) || IsDigit(c) || c == '.' || c == '-'
  }

  predicate AllOf(s: string, lo: int, hi: int, p: char -> bool)
    requires 0 <= lo <= hi <= |s|
  {
    forall i :: lo <= i < hi ==> p(s[i])
  }

  /** s matches the pattern with the `@` at p and the last separator `.` at q. */
  predicate EmailShape(s: string, p: int, q: int) {
    0 < p && p + 1 < q && q + 3 <= |s| && s[p] == '@' && s[q] == '.'
    && AllOf(s, 0, p, LocalChar) && AllOf(s, p + 1, q, DomainChar) && AllOf(s, q + 1, |s|, IsAsciiLetter)
  }

  /** `/^[a-zA-Z0-9._%+-]+@[a-zA-Z0-9.-]+\.[a-zA-Z]{2,}$/`: some way to cut s into a local part,
      `@`, a domain part, `.`, and a top-level part of two or more letters. */
  ghost predicate EmailPattern(s: string) {
    exists p, q :: EmailShape(s, p, q)
  }

  /** The index of the last c in s, or -1. */
  function LastIndexOfChar(s: string, c: char): (r: int)
    ensures -1 <= r < |s|
    ensures r >= 0 ==> s[r] == c
    ensures forall j :: r < j < |s| ==> s[j] != c
  {
    if s == [] then -1
    else if s[|s| - 1] == c then |s| - 1
    else LastIndexOfChar(s[..|s| - 1], c)
  }

  /** The pattern decided directly: no other character class holds `@`, so the cut is at the
      first `@`; no letter is a `.`, so the last cut is at the last `.`. */
  predicate EmailFormatOk(s: string) {
    '@' in s && EmailShape(s, IndexOf(s, '@'), LastIndexOfChar(s, '.'))
  }

  lemma EmailFormatDecides(s: string)
    ensures EmailFormatOk(s) <==> EmailPattern(s)
  {
    if EmailPattern(s) {
      var p, q :| EmailShape(s, p, q);
      assert '@' in s by { assert s[p] == '@'; }
    }
  }

  /** An address with a dotted domain matches. */
  lemma EmailExampleAccepted()
    ensures EmailPattern("ana.b@mail.example.com")
  {
    assert EmailShape("ana.b@mail.example.com", 5, 18);
  }

  /** An address whose domain has no `.` does not match. */
  lemma EmailExampleRefused()
    ensures !EmailPattern("ana@localhost")
  {
    var t := "ana@localhost";
    LocalhostCuts();
    assert !EmailFormatOk(t);
    EmailFormatDecides(t);
  }

  lemma LocalhostCuts()
    ensures IndexOf("ana@localhost", '@') == 3
    ensures LastIndexOfChar("ana@localhost", '.') == -1
  {
    IndexOfAt("ana@localhost", '@', 3);
    NoDot("ana@localhost");
  }

  /** A string without `.` has no last `.`. */
  lemma {:induction false} NoDot(s: string)
    requires '.' !in s
    ensures LastIndexOfChar(s, '.') == -1
  {
    if s != [] {
      assert s[..|s| - 1] <= s;
      assert '.' !in s[..|s| - 1];
      NoDot(s[..|s| - 1]);
    }
  }

  /** `/^(?=.*[A-Za-z])(?=.*\d)[A-Za-z\d@$!%*?&]{8,}$/`. */
  predicate PasswordChar(c: char) {
    IsAsciiLetter(c) || IsDigit(c) || c == '@' || c == '$' || c == '!' || c == '%' || c == '*'
    || c == '?' || c == '&'
  }

  predicate PasswordOk(p: string) {
    |p| >= 8 && (forall i :: 0 <= i < |p| ==> PasswordChar(p[i]))
    && (exists i :: 0 <= i < |p| && IsAsciiLetter(p[i]))
    && (exists i :: 0 <= i < |p| && IsDigit(p[i]))
  }

  const WeakPassword: string :=
    "Password must be at least 8 characters long and contain at least one letter and one number"

  lemma PasswordExamples()
    ensures PasswordOk("abcd1234")
    ensures !PasswordOk("abcdefgh") && !PasswordOk("12345678") && !PasswordOk("abc 1234") && !PasswordOk("abc123")
  {
    assert IsAsciiLetter("abcd1234"[0]) && IsDigit("abcd1234"[4]);
    assert !PasswordChar("abc 1234"[3]);
  }

  // ---------------------------------------------------------------- signup

  /** The TypeErrors `email.match(...)`, `password.match(...)` and `newPassword.match(...)`
      throw when the field is a truthy value that is not a string; the error middleware answers
      them with 500. */
  const EmailNotMatchable: string := "email.match is not a function"
  const PasswordNotMatchable: string := "password.match is not a function"
  const NewPasswordNotMatchable: string := "newPassword.match is not a function"

  /** The fields of a signup that reach `email.match` and `password.match` and throw there:
      all three present, and the e-mail not a string, or a matching e-mail and a password that
      is not a string. */
  ghost predicate SignupThrows(name: string, email: JsValue, password: JsValue) {
    name != "" && Truthy(email) && Truthy(password)
    && (!email.Str? || (EmailPattern(email.s) && !password.Str?))
  }

  /** The checks of `POST /signup` before any lookup, in their order; "" is an absent name. */
  function CheckSignup(name: string, email: JsValue, password: JsValue): (r: Result<string>)
    ensures r.Ok? <==> name != "" && email.Str? && password.Str? && email.s != "" && password.s != ""
                       && EmailPattern(email.s) && PasswordOk(password.s)
    ensures r.Ok? ==> email.Str? && r.value == NormalizeEmail(email.s)
    ensures r.Err? ==> (r.status == 500 <==> SignupThrows(name, email, password))
    ensures r.Err? ==> r.status == 400 || r.status == 500
  {
    if !Truthy(email) || name == "" || !Truthy(password) then Err(400, "All fields are required")
    else if !email.Str? then Err(500, EmailNotMatchable)
    else
      EmailFormatDecides(email.s);
      if !EmailFormatOk(email.s) then Err(400, "Invalid email format")
      else if !password.Str? then Err(500, PasswordNotMatchable)
      else if !PasswordOk(password.s) then Err(400, WeakPassword)
      else Ok(NormalizeEmail(email.s))
  }

  /** A non-zero number sent as the e-mail makes the handler throw: 500, not 400. */
  lemma NumericEmailThrows(name: string, n: int, password: JsValue)
    requires name != "" && n != 0 && Truthy(password)
    ensures CheckSignup(name, Num(n), password) == Err(500, EmailNotMatchable)
  {
  }

  /** With a well-formed e-mail, a non-zero number sent as the password makes the handler
      throw: 500, not 400. */
  lemma NumericPasswordThrows(name: string, email: string, n: int)
    requires name != "" && EmailPattern(email) && n != 0
    ensures CheckSignup(name, Str(email), Num(n)) == Err(500, PasswordNotMatchable)
  {
    EmailFormatDecides(email);
  }

  predicate EmailTaken(users: map<Id, User>, email: string) {
    exists u :: u in users && users[u].email == email
  }

  /** `POST /signup`: a valid request whose normalised e-mail is not stored creates a customer
      with that e-mail. */
  function Signup(r: RecordState, name: string, email: JsValue, password: JsValue): (o: Outcome<Id>)
    ensures o.result.Err? ==> o.records == r
  {
    SignupWith(r, name, CheckSignup(name, email, password))
  }

  /** The handler past its checks, whose result (the normalised e-mail) is `checked`. */
  function SignupWith(r: RecordState, name: string, checked: Result<string>): (o: Outcome<Id>)
    ensures o.result.Err? ==> o.records == r
  {
    if checked.Err? then Outcome(r, Err(checked.status, checked.message))
    else if EmailTaken(r.users, checked.value) then Outcome(r, Err(400, "User already exists"))
    else
      var id := r.nextRecordId;
      Outcome(r.(users := r.users[id := NewUser(name, checked.value)], nextRecordId := id + 1), Ok(id))
  }

  /** The stored e-mails are distinct. */
  predicate EmailsUnique(users: map<Id, User>) {
    forall a, b :: a in users && b in users && users[a].email == users[b].email ==> a == b
  }

  /** Signup succeeds exactly for valid input whose normalised e-mail is not stored. */
  lemma SignupAccepts(r: RecordState, name: string, email: JsValue, password: JsValue)
    ensures Signup(r, name, email, password).result.Ok?
            <==> CheckSignup(name, email, password).Ok? && !EmailTaken(r.users, NormalizeEmail(email.s))
  {
    var checked := CheckSignup(name, email, password);
    assert Signup(r, name, email, password) == SignupWith(r, name, checked);
  }

  /** The new user is an activated customer with the normalised e-mail under a fresh id, and
      nothing else changes. */
  lemma SignupCreates(r: RecordState, name: string, email: JsValue, password: JsValue)
    requires RecordIdsBelow(r)
    requires Signup(r, name, email, password).result.Ok?
    ensures var o := Signup(r, name, email, password);
            var id := o.result.value;
            email.Str? && id !in r.users
            && o.records == r.(users := r.users[id := NewUser(name, NormalizeEmail(email.s))], nextRecordId := id + 1)
            && o.records.users[id].role == Customer && o.records.users[id].isActivated
  {
    var checked := CheckSignup(name, email, password);
    assert Signup(r, name, email, password) == SignupWith(r, name, checked);
    SignupWithCreates(r, name, checked);
    CheckedEmail(name, email, password);
  }

  lemma CheckedEmail(name: string, email: JsValue, password: JsValue)
    requires CheckSignup(name, email, password).Ok?
    ensures email.Str? && CheckSignup(name, email, password).value == NormalizeEmail(email.s)
  {
  }

  lemma SignupWithCreates(r: RecordState, name: string, checked: Result<string>)
    requires RecordIdsBelow(r)
    requires SignupWith(r, name, checked).result.Ok?
    ensures var o := SignupWith(r, name, checked);
            var id := o.result.value;
            checked.Ok? && id !in r.users
            && o.records == r.(users := r.users[id := NewUser(name, checked.value)], nextRecordId := id + 1)
            && o.records.users[id].role == Customer && o.records.users[id].isActivated
  {
  }

  lemma AddUniqueEmail(users: map<Id, User>, id: Id, u: User)
    requires EmailsUnique(users) && id !in users && !EmailTaken(users, u.email)
    ensures EmailsUnique(users[id := u])
  {
  }

  /** Signup keeps the record invariants and the stored e-mails distinct. */
  lemma SignupKeepsInvariants(r: RecordState, name: string, email: JsValue, password: JsValue)
    requires RecordsValid(r) && EmailsUnique(r.users)
    ensures var o := Signup(r, name, email, password);
            RecordsValid(o.records) && EmailsUnique(o.records.users)
  {
    var o := Signup(r, name, email, password);
    if o.result.Ok? {
      var u := NewUser(name, CheckSignup(name, email, password).value);
      AddUserKeeps(r, u);
      AddUniqueEmail(r.users, r.nextRecordId, u);
    }
  }

  /** Signing up again with the same e-mail in any case or surrounding white space fails. */
  lemma SignupTwiceFails(r: RecordState, name: string, email: JsValue, password: JsValue,
                         name': string, email': JsValue, password': JsValue)
    requires Signup(r, name, email, password).result.Ok?
    requires CheckSignup(name', email', password').Ok? && NormalizeEmail(email'.s) == NormalizeEmail(email.s)
    ensures Signup(Signup(r, name, email, password).records, name', email', password').result
            == Err(400, "User already exists")
  {
    var r' := Signup(r, name, email, password).records;
    var id := r.nextRecordId;
    assert id in r'.users && r'.users[id].email == NormalizeEmail(email.s);
    assert EmailTaken(r'.users, CheckSignup(name', email', password').value);
  }

  // ---------------------------------------------------------------- password reset

  /** The claims of a verified token. */
  datatype Claims = Claims(userId: Id, tokenType: string)

  /** The checks of `POST /reset-password`, in their order: both fields, the password rule
      (`newPassword.match` throws on a truthy value that is not a string), the secret, a token
      that verifies (`claims` is None when `jwt.verify` throws, as it does for a token that is
      not a string), a reset token, and a stored user. */
  function CheckReset(token: JsValue, newPassword: JsValue, secretSet: bool, claims: Option<Claims>, users: map<Id, User>): (r: Result<Id>)
    ensures r.Ok? <==> Truthy(token) && newPassword.Str? && PasswordOk(newPassword.s) && secretSet
                       && claims.Some? && claims.value.tokenType == "reset" && claims.value.userId in users
    ensures r.Ok? ==> claims.Some? && r.value == claims.value.userId
    ensures !Truthy(token) || !Truthy(newPassword) ==> r == Err(400, "token and newPassword are required")
    ensures Truthy(token) && Truthy(newPassword) && !newPassword.Str? ==> r == Err(500, NewPasswordNotMatchable)
    ensures Truthy(token) && newPassword.Str? && newPassword.s != "" && !PasswordOk(newPassword.s)
            ==> r == Err(400, WeakPassword)
    ensures Truthy(token) && newPassword.Str? && PasswordOk(newPassword.s) ==>
              if !secretSet then r == Err(500, "Server auth misconfigured (SECRET missing)")
              else if claims.None? then r == Err(400, "Invalid or expired reset token")
              else if claims.value.tokenType != "reset" then r == Err(400, "Invalid reset token")
              else if claims.value.userId !in users then r == Err(404, "User not found")
              else r.Ok?
    ensures r.Err? ==> r.status == 400 || r.status == 404 || r.status == 500
  {
    if !Truthy(token) || !Truthy(newPassword) then Err(400, "token and newPassword are required")
    else if !newPassword.Str? then Err(500, NewPasswordNotMatchable)
    else if !PasswordOk(newPassword.s) then Err(400, WeakPassword)
    else if !secretSet then Err(500, "Server auth misconfigured (SECRET missing)")
    else if claims.None? then Err(400, "Invalid or expired reset token")
    else if claims.value.tokenType != "reset" then Err(400, "Invalid reset token")
    else if claims.value.userId !in users then Err(404, "User not found")
    else Ok(claims.value.userId)
  }

  /** A login token (which carries no reset type) is refused, whoever it names. */
  lemma LoginTokenCannotReset(token: JsValue, newPassword: string, users: map<Id, User>, id: Id)
    requires Truthy(token) && PasswordOk(newPassword)
    ensures CheckReset(token, Str(newPassword), true, Some(Claims(id, "")), users) == Err(400, "Invalid reset token")
  {
  }

  // ---------------------------------------------------------------- redirect origin

  /** `^http:\/\/localhost:\d+$` or `^http:\/\/127\.0\.0\.1:\d+$`. */
  predicate IsLocalOrigin(s: string) {
    (StartsWith(s, "http://localhost:") && |s| > 17 && AllDigits(s[17..]))
    || (StartsWith(s, "http://127.0.0.1:") && |s| > 17 && AllDigits(s[17..]))
  }

  /** `getSafeFrontendBase(value)`; `frontendUrl` is the `FRONTEND_URL` setting ("" when unset). */
  function SafeFrontendBase(value: JsValue, frontendUrl: string): (r: string)
    ensures var fallback := if frontendUrl != "" then frontendUrl else "http://localhost:5173";
            r == fallback || (value.Str? && r == value.s && IsLocalOrigin(r))
  {
    var fallback := if frontendUrl != "" then frontendUrl else "http://localhost:5173";
    if !Truthy(value) || !value.Str? then fallback
    else if IsLocalOrigin(value.s) then value.s
    else fallback
  }

  /** Every local origin with a port is passed through, whatever the setting. */
  lemma LocalOriginsPass(port: string, frontendUrl: string)
    requires port != "" && AllDigits(port)
    ensures SafeFrontendBase(Str("http://localhost:" + port), frontendUrl) == "http://localhost:" + port
    ensures SafeFrontendBase(Str("http://127.0.0.1:" + port), frontendUrl) == "http://127.0.0.1:" + port
  {
    var a := "http://localhost:" + port;
    var b := "http://127.0.0.1:" + port;
    assert a[..17] == "http://localhost:" && a[17..] == port;
    assert b[..17] == "http://127.0.0.1:" && b[17..] == port;
  }

  /** Any other origin, or a value that is not a string, falls back on the setting. */
  lemma OtherOriginsFallBack(value: JsValue, frontendUrl: string)
    requires frontendUrl != ""
    requires !value.Str? || !IsLocalOrigin(value.s)
    ensures SafeFrontendBase(value, frontendUrl) == frontendUrl
  {
  }

  lemma RemoteOriginRefused()
    ensures SafeFrontendBase(Str("https://localhost:5173"), "") == "http://localhost:5173"
    ensures SafeFrontendBase(Str("http://localhost:"), "") == "http://localhost:5173"
  {
    var s := "https://localhost:5173";
    assert s[..17][4] != "http://localhost:"[4];
    assert s[..17][4] != "http://127.0.0.1:"[4];
  }
}
