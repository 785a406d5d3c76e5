/** The registration schema (validation/user-validation.js): which request
    bodies `validateUserRegistration` accepts, and the first field it reports
    when it refuses one. The email format check is given as a predicate. */
module UserValidation {
  import opened Common

  /** The body fields the schema names, each possibly missing. */
  datatype RegistrationForm = RegistrationForm(
    username: Option<string>,
    email: Option<string>,
    password: Option<string>,
    confirmPassword: Option<string>,
    companyId: Option<string>,
    role: Option<string>)

  /** The field the schema reports; it stops at the first failing key, in the
      order the schema lists them. */
  datatype FormError = UsernameRequired | EmailInvalid | PasswordInvalid | PasswordsDiffer | CompanyIdRequired | RoleInvalid

  predicate IsUpper(c: char) { 'A' <= c <= 'Z' }
  predicate IsLower(c: char) { 'a' <= c <= 'z' }
  predicate IsDigit(c: char) { '0' <= c <= '9' }
  predicate IsSymbol(c: char) { c == '@' || c == '#' || c == '!' || c == '%' || c == '^' }

  /** The character class `[A-Za-z\d@#!%\^]`. */
  predicate Allowed(c: char) { IsUpper(c) || IsLower(c) || IsDigit(c) || IsSymbol(c) }

  /** The password pattern as a rule: 8 to 16 characters, all from the allowed
      class, with at least one upper-case letter, one lower-case letter, one
      digit and one symbol (the four lookaheads). */
  ghost predicate PasswordRule(p: string) {
    && 8 <= |p| <= 16
    && (forall i :: 0 <= i < |p| ==> Allowed(p[i]))
    && (exists i :: 0 <= i < |p| && IsUpper(p[i]))
    && (exists i :: 0 <= i < |p| && IsLower(p[i]))
    && (exists i :: 0 <= i < |p| && IsDigit(p[i]))
    && (exists i :: 0 <= i < |p| && IsSymbol(p[i]))
  }

  /** What one pass over a password has seen: whether every character was
      allowed, and which classes occurred. */
  datatype Seen = Seen(allAllowed: bool, upper: bool, lower: bool, digit: bool, symbol: bool)

  function Scan(p: string): Seen
    decreases |p|
  {
    if p == [] then Seen(true, false, false, false, false)
    else
      var s := Scan(p[1..]);
      var c := p[0];
      Seen(s.allAllowed && Allowed(c), s.upper || IsUpper(c), s.lower || IsLower(c),
           s.digit || IsDigit(c), s.symbol || IsSymbol(c))
  }

  /** The pattern check, by one pass over the password. */
  predicate PasswordMatches(p: string) {
    var s := Scan(p);
    8 <= |p| <= 16 && s.allAllowed && s.upper && s.lower && s.digit && s.symbol
  }

  lemma {:induction false} ScanSees(p: string)
    ensures Scan(p).allAllowed <==> forall i :: 0 <= i < |p| ==> Allowed(p[i])
    ensures Scan(p).upper <==> exists i :: 0 <= i < |p| && IsUpper(p[i])
    ensures Scan(p).lower <==> exists i :: 0 <= i < |p| && IsLower(p[i])
    ensures Scan(p).digit <==> exists i :: 0 <= i < |p| && IsDigit(p[i])
    ensures Scan(p).symbol <==> exists i :: 0 <= i < |p| && IsSymbol(p[i])
    decreases |p|
  {
    if p != [] {
      ScanSees(p[1..]);
      assert forall i :: 1 <= i < |p| ==> p[i] == p[1..][i - 1];
      if exists i :: 0 <= i < |p| && IsUpper(p[i]) {
        var i :| 0 <= i < |p| && IsUpper(p[i]);
        if i > 0 { assert IsUpper(p[1..][i - 1]); }
      }
      if exists i :: 0 <= i < |p| && IsLower(p[i]) {
        var i :| 0 <= i < |p| && IsLower(p[i]);
        if i > 0 { assert IsLower(p[1..][i - 1]); }
      }
      if exists i :: 0 <= i < |p| && IsDigit(p[i]) {
        var i :| 0 <= i < |p| && IsDigit(p[i]);
        if i > 0 { assert IsDigit(p[1..][i - 1]); }
      }
      if exists i :: 0 <= i < |p| && IsSymbol(p[i]) {
        var i :| 0 <= i < |p| && IsSymbol(p[i]);
        if i > 0 { assert IsSymbol(p[1..][i - 1]); }
      }
    }
  }

  /** The one-pass check accepts exactly the passwords the rule describes. */
  lemma PasswordMatchesRule(p: string)
    ensures PasswordMatches(p) <==> PasswordRule(p)
  {
    ScanSees(p);
  }

  /** A required `Joi.string()`: present and not empty. */
  predicate Given(s: Option<string>) {
    s.Some? && s.value != ""
  }

  /** validateUserRegistration: the keys in schema order, the first failing
      one reported. `emailOk` is Joi's email format check. */
  function ValidateRegistration(f: RegistrationForm, emailOk: string -> bool): (r: Result<(), FormError>)
    ensures !Given(f.username) ==> r == Failure(UsernameRequired)
    ensures r.Success? ==> Given(f.username) && Given(f.email) && Given(f.companyId) && f.confirmPassword == f.password
  {
    if !Given(f.username) then Failure(UsernameRequired)
    else if !Given(f.email) || !emailOk(f.email.value) then Failure(EmailInvalid)
    else if !Given(f.password) || !PasswordMatches(f.password.value) then Failure(PasswordInvalid)
    else if f.confirmPassword != f.password then Failure(PasswordsDiffer)
    else if !Given(f.companyId) then Failure(CompanyIdRequired)
    else if f.role.Some? && f.role.value !in {"admin", "manager", "employee", "guest"} then Failure(RoleInvalid)
    else Success(())
  }

  /** A form is accepted exactly when its username, email and company id are
      given, the email is well formed, the password follows the rule and is
      confirmed, and the role, if any, is one of the four. */
  lemma ValidateRegistrationExactly(f: RegistrationForm, emailOk: string -> bool)
    ensures ValidateRegistration(f, emailOk).Success? <==>
      && Given(f.username) && Given(f.email) && emailOk(f.email.value) && Given(f.companyId)
      && f.password.Some? && PasswordRule(f.password.value)
      && f.confirmPassword == f.password
      && (f.role.None? || f.role.value in {"admin", "manager", "employee", "guest"})
  {
    if f.password.Some? {
      PasswordMatchesRule(f.password.value);
    }
  }

  /** An accepted password is 8 to 16 characters long and made only of allowed characters. */
  lemma AcceptedPasswordShape(f: RegistrationForm, emailOk: string -> bool)
    requires ValidateRegistration(f, emailOk).Success?
    ensures 8 <= |f.password.value| <= 16
    ensures forall i :: 0 <= i < |f.password.value| ==> Allowed(f.password.value[i])
    ensures f.confirmPassword == f.password
  {
    ScanSees(f.password.value);
  }

  /** The password is judged before its confirmation: a password outside the
      rule is reported as such whatever the confirmation says. */
  lemma PasswordJudgedFirst(f: RegistrationForm, emailOk: string -> bool)
    requires Given(f.username) && Given(f.email) && emailOk(f.email.value)
    requires f.password.Some? && !PasswordRule(f.password.value)
    ensures ValidateRegistration(f, emailOk) == Failure(PasswordInvalid)
  {
    PasswordMatchesRule(f.password.value);
  }
}
