/**
 * Pending e-mail verifications (user/models.py) and the validation of the registration,
 * verification-code and login forms (user/forms.py). Django's `CharField` and
 * `EmailField` strip surrounding white space before validating, so every cleaned value
 * here is the stripped input. The e-mail syntax check of `EmailField` is not modelled.
 */
module Verification {
  import opened Wrappers
  import opened Text
  import opened Directory
  import opened Fields

  /** Length of a generated code, and the `max_length` of the code column and field. */
  const CodeLength := 6
  /** 15 minutes in microseconds. */
  const ExpiryWindow: int := 15 * 60 * 1000000
  const AllowedDomain: string := "@ust-legazpi.edu.ph"

  /** One pending registration; the table holds at most one per address. */
  datatype EmailVerification = EmailVerification(
    email: string,
    password: string,     // encoded
    code: string,
    createdAt: Time)

  /** `is_expired()`: strictly more than 15 minutes have passed since `created_at`. */
  function IsExpired(v: EmailVerification, now: Time): (expired: bool)
    ensures expired <==> now - v.createdAt > 15 * 60 * 1000000
    ensures now <= v.createdAt + ExpiryWindow ==> !expired
  {
    now > v.createdAt + ExpiryWindow
  }

  /**
   * `generate_code(length)`: `length` characters drawn from the decimal digits. The
   * random draws are the indices into "0123456789"; their number is `length`.
   */
  function GenerateCode(draws: seq<nat>): (code: string)
    requires forall i :: 0 <= i < |draws| ==> draws[i] < 10
    ensures |code| == |draws| && IsDigits(code)
    ensures forall i :: 0 <= i < |draws| ==> code[i] as int - '0' as int == draws[i]
  {
    seq(|draws|, i requires 0 <= i < |draws| => DigitChar(draws[i]))
  }

  /** `set_password(raw)`: stores the encoding of the raw password, never the raw text. */
  function SetPassword(v: EmailVerification, raw: string): (r: EmailVerification)
    ensures r.password != raw && CheckPassword(raw, r.password)
    ensures r.email == v.email && r.code == v.code && r.createdAt == v.createdAt
  {
    v.(password := MakePassword(raw))
  }

  /** `EmailVerificationForm`: the cleaned code, at most six characters. */
  function CleanCode(raw: string): (r: Result<string, FormError>)
    ensures r.Ok? ==> 0 < |r.value| <= CodeLength && r.value == Strip(raw)
    ensures Strip(raw) != "" && |Strip(raw)| <= CodeLength ==> r.Ok?
  {
    CleanCharField("code", raw, Some(CodeLength))
  }

  /**
   * `RegisterForm.clean_email`: the domain must be the university's (compared
   * case-insensitively) and the address must not already be a user name; an accepted
   * address is returned as given.
   */
  function CleanEmail(email: string, users: seq<User>): (r: Result<string, FormError>)
    ensures r.Ok? <==> EndsWith(Lower(email), AllowedDomain) && forall i :: 0 <= i < |users| ==> users[i].username != email
    ensures r.Ok? ==> r.value == email
    ensures !EndsWith(Lower(email), AllowedDomain) ==> r == Err(DomainNotAllowed)
  {
    if !EndsWith(Lower(email), AllowedDomain) then Err(DomainNotAllowed)
    else if FindByUsername(users, email).Some? then Err(AlreadyRegistered)
    else Ok(email)
  }

  /** `RegisterForm.clean`: "Passwords do not match" only when both are present and differ. */
  function PasswordMismatch(password: Option<string>, confirm: Option<string>): (mismatch: bool)
    ensures mismatch <==> password.Some? && confirm.Some? && password.value != "" && confirm.value != "" && password.value != confirm.value
  {
    match (password, confirm)
    case (Some(pw), Some(pw2)) => pw != "" && pw2 != "" && pw != pw2
    case _ => false
  }

  datatype Registration = Registration(email: string, password: string)

  function OkValue(r: Result<string, FormError>): Option<string>
  {
    if r.Ok? then Some(r.value) else None
  }

  /**
   * `RegisterForm.is_valid()`: every field cleans, `clean_email` accepts the address
   * and `clean` finds no mismatch. Returns the first error otherwise.
   */
  function CleanRegistration(email: string, password: string, confirm: string, users: seq<User>): (r: Result<Registration, FormError>)
    ensures r.Ok? <==>
      Strip(email) != "" && CleanEmail(Strip(email), users).Ok? &&
      Strip(password) != "" && Strip(password) == Strip(confirm)
    ensures r.Ok? ==> r.value == Registration(Strip(email), Strip(password))
  {
    var e := CleanCharField("email", email, None);
    var pw := CleanCharField("password", password, None);
    var pw2 := CleanCharField("password_confirm", confirm, None);
    var checked := if e.Ok? then CleanEmail(e.value, users) else e;
    if checked.Err? then Err(checked.error)
    else if pw.Err? then Err(pw.error)
    else if pw2.Err? then Err(pw2.error)
    else if PasswordMismatch(OkValue(pw), OkValue(pw2)) then Err(PasswordsDiffer)
    else Ok(Registration(checked.value, pw.value))
  }

  /**
   * `authenticate(username=..., password=...)` with the model backend: the user with
   * that name, when the password checks against the stored encoding.
   */
  function Authenticate(users: seq<User>, username: string, raw: string): (r: Option<UserId>)
    requires UniqueUsernames(users)
    ensures r.Some? <==> exists i :: 0 <= i < |users| && users[i].username == username && CheckPassword(raw, users[i].password)
    ensures r.Some? ==>
      exists i :: 0 <= i < |users| && users[i].username == username && users[i].id == r.value &&
        CheckPassword(raw, users[i].password)
  {
    match FindByUsername(users, username)
    case Some(u) =>
      if CheckPassword(raw, u.password) then
        Some(u.id)
      else
        assert forall i :: 0 <= i < |users| && users[i].username == username ==> users[i] == u by {
          forall i | 0 <= i < |users| && users[i].username == username
            ensures users[i] == u
          {
            FindByUsernameUnique(users, i);
          }
        }
        None
    case None => None
  }
}
