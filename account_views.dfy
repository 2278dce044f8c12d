/**
 * The account views (user/views.py): registration sends a six-digit code and keeps one
 * pending verification per address; verification turns a pending record into a user;
 * login authenticates with the address as user name. The session is reduced to the one
 * key these views use, `request.session['email']`, passed in and handed back; mail goes
 * to the outbox; the random digits of the code are a parameter.
 */
module AccountViews {
  import opened Wrappers
  import opened Text
  import opened Directory
  import opened Fields
  import opened Verification
  import opened Store

  const CodeSubject: string := "UST Ticket System Verification Code"
  const CodeMessagePrefix: string := "Your verification code is: "

  /** The message carrying the code: to the address alone, the code after a fixed prefix. */
  function CodeMail(email: string, code: string): (m: Mail)
    ensures m.recipients == [email] && m.subject == CodeSubject
    ensures CodeMessagePrefix <= m.body && m.body[|CodeMessagePrefix|..] == code
  {
    Mail(CodeSubject, CodeMessagePrefix + code, [email])
  }

  /**
   * The pending record after `get_or_create`, `generate_code`, `set_password` and
   * `created_at = now`: every field is rewritten, so an earlier record leaves no trace.
   */
  function PendingRecord(reg: Registration, code: string, now: Time): (v: EmailVerification)
    ensures v.email == reg.email && v.code == code && v.createdAt == now
    ensures v.password != reg.password
  {
    SetPassword(EmailVerification(reg.email, "", code, now), reg.password)
  }

  /** The stored password accepts the registered password and nothing else. */
  lemma PendingPasswordChecks(reg: Registration, code: string, now: Time, raw: string)
    ensures CheckPassword(raw, PendingRecord(reg, code, now).password) <==> raw == reg.password
  {
    CheckPasswordExact(raw, reg.password);
  }

  datatype RegisterOutcome = Rejected(error: FormError) | CodeSent(email: string)

  /** `register_view` on a POST; `draws` are the six random digits of the code. */
  method Register(db: Database, email: string, password: string, confirm: string, draws: seq<nat>, now: Time,
                  session: Option<string>) returns (outcome: RegisterOutcome, newSession: Option<string>)
    requires db.Valid()
    requires |draws| == CodeLength && forall i :: 0 <= i < |draws| ==> draws[i] < 10
    modifies db`verifications, db`outbox
    ensures db.Valid()
    ensures var r := CleanRegistration(email, password, confirm, old(db.users));
      r.Err? ==>
        outcome == Rejected(r.error) && newSession == session &&
        db.verifications == old(db.verifications) && db.outbox == old(db.outbox)
    ensures var r := CleanRegistration(email, password, confirm, old(db.users));
      var code := GenerateCode(draws);
      r.Ok? ==>
        outcome == CodeSent(r.value.email) && newSession == Some(r.value.email) &&
        db.verifications == old(db.verifications)[r.value.email := PendingRecord(r.value, code, now)] &&
        db.outbox == old(db.outbox) + [CodeMail(r.value.email, code)]
  {
    var r := CleanRegistration(email, password, confirm, db.users);
    if r.Err? {
      outcome, newSession := Rejected(r.error), session;
      return;
    }
    var code := GenerateCode(draws);
    db.SaveVerification(PendingRecord(r.value, code, now));
    db.SendMail(CodeMail(r.value.email, code));
    outcome, newSession := CodeSent(r.value.email), Some(r.value.email);
  }

  datatype VerifyOutcome =
    | NoSession        // no address in the session: back to registration
    | NoRecord         // no pending record for it: back to registration
    | BadForm(error: FormError)
    | Expired          // the record is deleted
    | WrongCode
    | Taken            // `create_user` fails on the unique user name
    | Verified

  /** What `verify_email_view` decides on a POST, in the order it checks. */
  function VerifyDecision(verifications: map<string, EmailVerification>, users: seq<User>,
                          session: Option<string>, rawCode: string, now: Time): (r: VerifyOutcome)
    ensures r.NoSession? <==> session.None? || session.value == ""
    ensures r.Verified? <==>
      session.Some? && session.value != "" && session.value in verifications &&
      CleanCode(rawCode).Ok? && CleanCode(rawCode).value == verifications[session.value].code &&
      !IsExpired(verifications[session.value], now) &&
      forall i :: 0 <= i < |users| ==> users[i].username != session.value
    ensures r.NoRecord? <==> session.Some? && session.value != "" && session.value !in verifications
    ensures r.BadForm? <==>
      session.Some? && session.value != "" && session.value in verifications && CleanCode(rawCode).Err?
    ensures r.BadForm? ==> r.error == CleanCode(rawCode).error
    ensures r.Expired? <==>
      session.Some? && session.value != "" && session.value in verifications &&
      CleanCode(rawCode).Ok? && IsExpired(verifications[session.value], now)
    ensures r.WrongCode? <==>
      session.Some? && session.value != "" && session.value in verifications &&
      CleanCode(rawCode).Ok? && !IsExpired(verifications[session.value], now) &&
      CleanCode(rawCode).value != verifications[session.value].code
    ensures r.Taken? <==>
      session.Some? && session.value != "" && session.value in verifications &&
      CleanCode(rawCode).Ok? && CleanCode(rawCode).value == verifications[session.value].code &&
      !IsExpired(verifications[session.value], now) &&
      exists i :: 0 <= i < |users| && users[i].username == session.value
  {
    if session.None? || session.value == "" then NoSession
    else if session.value !in verifications then NoRecord
    else
      var v := verifications[session.value];
      var code := CleanCode(rawCode);
      if code.Err? then BadForm(code.error)
      else if IsExpired(v, now) then Expired
      else if v.code != code.value then WrongCode
      else if FindByUsername(users, session.value).Some? then Taken
      else Verified
  }

  /**
   * Expiry is checked before the code: once the form cleans, an expired record ends in `Expired` (and is deleted)
   * whatever code was typed, the right one included.
   */
  lemma ExpiredBeforeCode(verifications: map<string, EmailVerification>, users: seq<User>, email: string,
                          rawCode: string, now: Time)
    requires email != "" && email in verifications && IsExpired(verifications[email], now)
    requires CleanCode(rawCode).Ok?
    ensures VerifyDecision(verifications, users, Some(email), rawCode, now) == Expired
  {
  }

  /**
   * The code that registration mails (`CodeMail` puts it after the prefix) verifies the address within fifteen minutes,
   * as long as nobody has taken the address as a user name meanwhile.
   */
  lemma {:induction false} MailedCodeVerifies(verifications: map<string, EmailVerification>, users: seq<User>,
                                              reg: Registration, draws: seq<nat>, now: Time, later: Time)
    requires reg.email != ""
    requires |draws| == CodeLength && forall i :: 0 <= i < |draws| ==> draws[i] < 10
    requires now <= later <= now + ExpiryWindow
    requires forall i :: 0 <= i < |users| ==> users[i].username != reg.email
    ensures var code := GenerateCode(draws);
      VerifyDecision(verifications[reg.email := PendingRecord(reg, code, now)], users, Some(reg.email), code, later) == Verified
  {
    var code := GenerateCode(draws);
    var pending := PendingRecord(reg, code, now);
    var table := verifications[reg.email := pending];
    GeneratedCodeCleans(draws);
    assert table[reg.email] == pending;
    assert !IsExpired(pending, later);
    assert CleanCode(code).Ok? && CleanCode(code).value == table[reg.email].code;
    assert !IsExpired(table[reg.email], later);
    assert VerifyDecision(table, users, Some(reg.email), code, later).Verified?;
  }

  /** A generated code passes the code form unchanged. */
  lemma GeneratedCodeCleans(draws: seq<nat>)
    requires |draws| == CodeLength && forall i :: 0 <= i < |draws| ==> draws[i] < 10
    ensures CleanCode(GenerateCode(draws)) == Ok(GenerateCode(draws))
  {
    var code := GenerateCode(draws);
    assert forall i :: 0 <= i < |code| ==> !IsSpace(code[i]);
  }

  /**
   * The password column of the account `verify_email_view` creates, as written:
   * `create_user(password=verification.password)` hashes its argument, which is already
   * the encoded password, so only that encoding itself would be accepted.
   */
  function AccountPasswordAsWritten(v: EmailVerification): (encoded: string)
    ensures forall raw :: CheckPassword(raw, encoded) <==> raw == v.password
  {
    EncodingAcceptsOnlyItsRaw(v.password);
    MakePassword(v.password)
  }

  lemma EncodingAcceptsOnlyItsRaw(original: string)
    ensures forall raw :: CheckPassword(raw, MakePassword(original)) <==> raw == original
  {
    forall raw
      ensures CheckPassword(raw, MakePassword(original)) <==> raw == original
    {
      CheckPasswordExact(raw, original);
    }
  }

  /** The password column as intended: the stored encoding, taken over unchanged. */
  function AccountPassword(v: EmailVerification): (encoded: string)
    ensures forall raw :: CheckPassword(raw, encoded) <==> CheckPassword(raw, v.password)
  {
    v.password
  }

  /** The account a successful verification of `email` creates, as written (through `create_user`). */
  function NewAccount(uid: UserId, email: string, v: EmailVerification): (u: User)
    ensures u.id == uid && u.username == email && u.email == NormalizeEmail(email) && !u.isStaff
    ensures u.password == AccountPasswordAsWritten(v)
  {
    User(uid, email, NormalizeEmail(email), "", "", false, AccountPasswordAsWritten(v))
  }

  /** The account as intended: the same row, with the pending record's encoding as its password. */
  function IntendedAccount(uid: UserId, email: string, v: EmailVerification): (u: User)
    ensures u.id == uid && u.username == email && u.email == NormalizeEmail(email) && !u.isStaff
    ensures u.password == AccountPassword(v)
  {
    User(uid, email, NormalizeEmail(email), "", "", false, AccountPassword(v))
  }

  /**
   * `verify_email_view` on a POST, as written. Only a verification or an expiry writes:
   * the first creates the account through `create_user(username=email, email=email,
   * password=verification.password)` and drops the record, the second drops the record.
   */
  method VerifyEmail(db: Database, session: Option<string>, rawCode: string, now: Time)
    returns (outcome: VerifyOutcome, account: Option<UserId>)
    requires db.Valid()
    modifies db`users, db`nextUserId, db`verifications
    ensures db.Valid()
    ensures outcome == VerifyDecision(old(db.verifications), old(db.users), session, rawCode, now)
    ensures outcome == Verified ==>
      var email := session.value;
      account == Some(old(db.nextUserId)) &&
      db.users == old(db.users) + [NewAccount(old(db.nextUserId), email, old(db.verifications)[email])] &&
      db.verifications == old(db.verifications) - {email}
    ensures outcome == Expired ==>
      account.None? && db.users == old(db.users) && db.nextUserId == old(db.nextUserId) &&
      db.verifications == old(db.verifications) - {session.value}
    ensures outcome != Verified && outcome != Expired ==>
      account.None? && db.users == old(db.users) && db.nextUserId == old(db.nextUserId) &&
      db.verifications == old(db.verifications)
  {
    outcome := VerifyDecision(db.verifications, db.users, session, rawCode, now);
    account := None;
    if outcome == Expired {
      db.DeleteVerification(session.value);
    } else if outcome == Verified {
      var email := session.value;
      var v := db.verifications[email];
      var uid := db.CreateUser(email, email, v.password);
      db.DeleteVerification(email);
      account := Some(uid);
    }
  }

  /**
   * The same view as intended: the account row takes over the pending record's
   * encoding, as the "already hashed" remark at user/views.py:81 means it to.
   */
  method VerifyEmailIntended(db: Database, session: Option<string>, rawCode: string, now: Time)
    returns (outcome: VerifyOutcome, account: Option<UserId>)
    requires db.Valid()
    modifies db`users, db`nextUserId, db`verifications
    ensures db.Valid()
    ensures outcome == VerifyDecision(old(db.verifications), old(db.users), session, rawCode, now)
    ensures outcome == Verified ==>
      var email := session.value;
      account == Some(old(db.nextUserId)) &&
      db.users == old(db.users) + [IntendedAccount(old(db.nextUserId), email, old(db.verifications)[email])] &&
      db.verifications == old(db.verifications) - {email}
    ensures outcome == Expired ==>
      account.None? && db.users == old(db.users) && db.nextUserId == old(db.nextUserId) &&
      db.verifications == old(db.verifications) - {session.value}
    ensures outcome != Verified && outcome != Expired ==>
      account.None? && db.users == old(db.users) && db.nextUserId == old(db.nextUserId) &&
      db.verifications == old(db.verifications)
  {
    outcome := VerifyDecision(db.verifications, db.users, session, rawCode, now);
    account := None;
    if outcome == Expired {
      db.DeleteVerification(session.value);
    } else if outcome == Verified {
      var email := session.value;
      var v := db.verifications[email];
      var uid := db.InsertUser(email, NormalizeEmail(email), AccountPassword(v));
      db.DeleteVerification(email);
      account := Some(uid);
    }
  }

  datatype LoginError = LoginForm(error: FormError) | InvalidCredentials

  /** `login_view` on a POST: the cleaned address is the user name `authenticate` looks up. */
  function LogIn(users: seq<User>, email: string, password: string): (r: Result<UserId, LoginError>)
    requires UniqueUsernames(users)
    ensures r.Ok? <==>
      Strip(email) != "" && Strip(password) != "" &&
      exists i :: 0 <= i < |users| && users[i].username == Strip(email) && CheckPassword(Strip(password), users[i].password)
    ensures r.Ok? ==>
      exists i :: 0 <= i < |users| && users[i].id == r.value && users[i].username == Strip(email) &&
        CheckPassword(Strip(password), users[i].password)
    ensures Strip(email) == "" ==> r == Err(LoginForm(Required("email")))
  {
    var e := CleanCharField("email", email, None);
    var p := CleanCharField("password", password, None);
    if e.Err? then Err(LoginForm(e.error))
    else if p.Err? then Err(LoginForm(p.error))
    else
      match Authenticate(users, e.value, p.value)
      case Some(uid) => Ok(uid)
      case None => Err(InvalidCredentials)
  }

  /** The account the intended verification creates opens with the address and password typed at registration. */
  lemma {:induction false} VerifiedAccountLogsIn(users: seq<User>, uid: UserId, email: string, password: string,
                                                 code: string, now: Time)
    requires Strip(email) != "" && Strip(password) != ""
    requires var reg := Registration(Strip(email), Strip(password));
      UniqueUsernames(users + [IntendedAccount(uid, reg.email, PendingRecord(reg, code, now))])
    ensures var reg := Registration(Strip(email), Strip(password));
      LogIn(users + [IntendedAccount(uid, reg.email, PendingRecord(reg, code, now))], email, password) == Ok(uid)
  {
    var reg := Registration(Strip(email), Strip(password));
    var users' := users + [IntendedAccount(uid, reg.email, PendingRecord(reg, code, now))];
    var k := |users|;
    PendingPasswordChecks(reg, code, now, Strip(password));
    assert users'[k].username == Strip(email) && users'[k].id == uid;
    assert CheckPassword(Strip(password), users'[k].password);
    FindByUsernameUnique(users', k);
    assert Authenticate(users', Strip(email), Strip(password)) == Some(uid);
    assert CleanCharField("email", email, None) == Ok(Strip(email));
    assert CleanCharField("password", password, None) == Ok(Strip(password));
  }

  /** As written, the registered password never opens the account: only its encoding would. */
  lemma {:induction false} AsWrittenAccountRejectsPassword(reg: Registration, code: string, now: Time, raw: string)
    ensures var pending := PendingRecord(reg, code, now);
      CheckPassword(raw, AccountPasswordAsWritten(pending)) <==> raw == pending.password
    ensures !CheckPassword(reg.password, AccountPasswordAsWritten(PendingRecord(reg, code, now)))
  {
    var pending := PendingRecord(reg, code, now);
    PendingPasswordChecks(reg, code, now, pending.password);
  }

  /** As written, logging in with the address and password typed at registration fails. */
  lemma {:induction false} AsWrittenAccountLoginFails(users: seq<User>, uid: UserId, email: string, password: string,
                                                      code: string, now: Time)
    requires Strip(email) != "" && Strip(password) != ""
    requires var reg := Registration(Strip(email), Strip(password));
      UniqueUsernames(users + [NewAccount(uid, reg.email, PendingRecord(reg, code, now))])
    ensures var reg := Registration(Strip(email), Strip(password));
      LogIn(users + [NewAccount(uid, reg.email, PendingRecord(reg, code, now))], email, password) == Err(InvalidCredentials)
  {
    var reg := Registration(Strip(email), Strip(password));
    var pending := PendingRecord(reg, code, now);
    var account := NewAccount(uid, reg.email, pending);
    var users' := users + [account];
    var k := |users|;
    AsWrittenAccountRejectsPassword(reg, code, now, Strip(password));
    assert !CheckPassword(Strip(password), account.password);
    assert users'[k] == account;
    FindByUsernameUnique(users', k);
    assert Authenticate(users', Strip(email), Strip(password)).None?;
    assert CleanCharField("email", email, None) == Ok(Strip(email));
    assert CleanCharField("password", password, None) == Ok(Strip(password));
  }
}
