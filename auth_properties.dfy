/**
 * Properties of the credential lifecycle that relate several handler steps:
 * duplicate sign-up, the look-alike login failures, the exact expiry
 * boundaries of codes and reset tokens, single use of both, and the
 * sign-up / verify / login and forgot / reset / login sequences.
 */
module AuthProperties {
  import opened Wrappers
  import opened UserModel
  import opened AuthController

  /** Once a sign-up has stored its document, signing up again with that email is refused. */
  lemma RegisterSameEmailTwice(users: seq<User>, email: string, password: string, name: string,
                               code: string, now: Millis, mailSent: bool,
                               password': Option<string>, name': Option<string>, code': string,
                               later: Millis, mailSent': bool, hash: string -> string)
    requires !Missing(password') && !Missing(name')
    requires var r := RegisterStep(users, Some(email), Some(password), Some(name), code, now, mailSent, hash).result;
             r.Success? || r == Failure(MailFailed)
    ensures var s := RegisterStep(users, Some(email), Some(password), Some(name), code, now, mailSent, hash);
            RegisterStep(s.users, Some(email), password', name', code', later, mailSent', hash)
              == Step(s.users, Failure(UserAlreadyExists))
  {

  }

  /**
   * An unknown email and a wrong password for a known one give the same
   * answer, and neither changes the table.
   */
  lemma LoginFailuresLookAlike(users: seq<User>, email: string, password: string, now: Millis,
                               hash: string -> string)
    requires email != "" && password != ""
    requires forall i | 0 <= i < |users| :: users[i].email == email ==> users[i].password != hash(password)
    ensures LoginStep(users, Some(email), Some(password), now, hash) == Step(users, Failure(InvalidCredentials))
  {

  }

  /**
   * The first document holding a code with expiry `t` is refused as expired
   * exactly when `t < now`: at the expiry instant itself the code still works.
   */
  lemma VerificationExpiryBoundary(users: seq<User>, code: string, i: nat, t: Millis, now: Millis,
                                   mailSent: bool)
    requires i < |users|
    requires users[i].verificationToken == Some(code) && users[i].verificationTokenExpireAt == Some(t)
    requires forall j | 0 <= j < i :: users[j].verificationToken != Some(code)
    ensures VerifyEmailStep(users, code, now, mailSent).result == Failure(VerificationCodeExpired) <==> t < now
    ensures now <= t && mailSent ==> VerifyEmailStep(users, code, now, mailSent).result.Success?
  {

  }

  /**
   * A verification code that has been accepted is consumed, also when the
   * welcome mail then fails (the save came first): the document it verified
   * no longer holds it, so the code never verifies that document again; when
   * no other document holds the same code, a second use fails.
   */
  lemma VerificationCodeSingleUse(users: seq<User>, code: string, now: Millis, mailSent: bool,
                                  later: Millis, mailSent': bool)
    requires var r := VerifyEmailStep(users, code, now, mailSent).result;
             r.Success? || r == Failure(MailFailed)
    ensures var s := VerifyEmailStep(users, code, now, mailSent);
            var k := FindOne(users, VerificationTokenIs(code)).value;
            && s.users[k].isVerified
            && s.users[k].verificationToken.None?
            && FindOne(s.users, VerificationTokenIs(code)) != Some(k)
    ensures (forall i, j | 0 <= i < j < |users| ::
               users[i].verificationToken != Some(code) || users[j].verificationToken != Some(code)) ==>
            var s := VerifyEmailStep(users, code, now, mailSent);
            VerifyEmailStep(s.users, code, later, mailSent').result == Failure(InvalidVerificationCode)
  {
    var s := VerifyEmailStep(users, code, now, mailSent);
    var k := FindOne(users, VerificationTokenIs(code)).value;
    assert s.users == users[k := users[k].(isVerified := true, verificationToken := None,
                                           verificationTokenExpireAt := None, updatedAt := now)];
    assert !Satisfies(s.users[k], VerificationTokenIs(code));
    if forall i, j | 0 <= i < j < |users| ::
         users[i].verificationToken != Some(code) || users[j].verificationToken != Some(code)
    {
      forall j | 0 <= j < |s.users|
        ensures s.users[j].verificationToken != Some(code)
      {
        if j != k {
          assert users[k].verificationToken == Some(code);
          assert s.users[j] == users[j];
        }
      }
    }
  }

  /**
   * A reset token with expiry `t`, held by one document, is refused exactly
   * when `t <= now`: unlike a verification code, it no longer works at its
   * expiry instant.
   */
  lemma ResetTokenExpiryBoundary(users: seq<User>, token: string, i: nat, t: Millis, now: Millis,
                                 password: Option<string>, mailSent: bool, hash: string -> string)
    requires i < |users|
    requires users[i].resetPasswordToken == Some(token) && users[i].resetPasswordTokenExpireAt == Some(t)
    requires forall j | 0 <= j < |users| && j != i :: users[j].resetPasswordToken != Some(token)
    ensures (ResetPasswordStep(users, token, password, now, mailSent, hash).result
               == Failure(InvalidOrExpiredResetToken)) <==> t <= now
  {

  }

  /**
   * A reset token that has been used is consumed, also when the
   * confirmation mail then fails: when no other document holds the same
   * token, using it again fails at any later time.
   */
  lemma ResetTokenSingleUse(users: seq<User>, token: string, password: Option<string>, now: Millis,
                            mailSent: bool, password': Option<string>, later: Millis, mailSent': bool,
                            hash: string -> string)
    requires var r := ResetPasswordStep(users, token, password, now, mailSent, hash).result;
             r.Success? || r == Failure(MailFailed)
    requires forall i, j | 0 <= i < j < |users| ::
               users[i].resetPasswordToken != Some(token) || users[j].resetPasswordToken != Some(token)
    ensures var s := ResetPasswordStep(users, token, password, now, mailSent, hash);
            ResetPasswordStep(s.users, token, password', later, mailSent', hash).result
              == Failure(InvalidOrExpiredResetToken)
  {

  }

  /**
   * forgot-password followed, within the hour, by reset-password with the
   * issued token replaces that user's password; the new password then logs
   * in, and the token cannot be used a second time.
   */
  lemma ForgotThenResetPassword(users: seq<User>, email: string, token: string, issued: Millis,
                                mailSent: bool, newPassword: string, used: Millis, mailSent': bool,
                                password': Option<string>, later: Millis, loginAt: Millis,
                                hash: string -> string)
    requires TableValid(users)
    requires exists i | 0 <= i < |users| :: users[i].email == email
    requires forall i | 0 <= i < |users| :: users[i].resetPasswordToken != Some(token)
    requires issued <= used < issued + ResetTokenLifetime
    requires newPassword != ""
    ensures var s1 := ForgotPasswordStep(users, email, token, issued, mailSent);
            var s2 := ResetPasswordStep(s1.users, token, Some(newPassword), used, mailSent', hash);
            && (s2.result.Success? <==> mailSent')
            && |s2.users| == |users|
            && (forall i | 0 <= i < |users| ::
                  if users[i].email == email
                  then s2.users[i].password == hash(newPassword) && s2.users[i].resetPasswordToken.None?
                  else s2.users[i] == users[i])
            && LoginStep(s2.users, Some(email), Some(newPassword), loginAt, hash).result.Success?
            && ResetPasswordStep(s2.users, token, password', later, mailSent', hash).result
                 == Failure(InvalidOrExpiredResetToken)
  {
    var s1 := ForgotPasswordStep(users, email, token, issued, mailSent);
    var k := FindOne(users, EmailIs(email)).value;
    assert s1.users[k].resetPasswordToken == Some(token);
    assert Satisfies(s1.users[k], ResetTokenLive(token, used));
    assert FindOne(s1.users, ResetTokenLive(token, used)) == Some(k);
    var s2 := ResetPasswordStep(s1.users, token, Some(newPassword), used, mailSent', hash);
    forall i | 0 <= i < |users|
      ensures if users[i].email == email
              then s2.users[i].password == hash(newPassword) && s2.users[i].resetPasswordToken.None?
              else s2.users[i] == users[i]
    {
      if i != k {
        assert users[k].email == email;
        assert users[i].email != email;
      }
    }
    assert EmailsUnique(s2.users) by {
      forall i | 0 <= i < |users| ensures s2.users[i].email == users[i].email { }
    }
    assert s2.users[k].email == email && s2.users[k].password == hash(newPassword);
    forall j | 0 <= j < |s2.users|
      ensures !Satisfies(s2.users[j], ResetTokenLive(token, later))
    {
      if j != k {
        assert s2.users[j] == users[j];
      }
    }
  }

  /**
   * The life of a new account: sign-up stores an unverified user; the code
   * it was given verifies the email until it expires; the password then
   * logs in and the answer shows the account as verified.
   */
  lemma SignUpVerifyLogin(users: seq<User>, email: string, password: string, name: string,
                          code: string, now: Millis, verifyAt: Millis, loginAt: Millis,
                          hash: string -> string)
    requires TableValid(users) && HashNeverEmpty(hash)
    requires email != "" && password != "" && name != ""
    requires forall i | 0 <= i < |users| :: users[i].email != email
    requires forall i | 0 <= i < |users| :: users[i].verificationToken != Some(code)
    requires verifyAt <= now + VerificationCodeLifetime
    ensures var s1 := RegisterStep(users, Some(email), Some(password), Some(name), code, now, true, hash);
            var s2 := VerifyEmailStep(s1.users, code, verifyAt, true);
            var s3 := LoginStep(s2.users, Some(email), Some(password), loginAt, hash);
            && s1.result == Success(PublicUser(|users|, email, name, false))
            && s2.result == Success(PublicUser(|users|, email, name, true))
            && s3.result == Success(PublicUser(|users|, email, name, true))
            && TableValid(s3.users)
  {
    var s1 := RegisterStep(users, Some(email), Some(password), Some(name), code, now, true, hash);
    var n := |users|;
    assert FindOne(s1.users, VerificationTokenIs(code)) == Some(n) by {
      assert Satisfies(s1.users[n], VerificationTokenIs(code));
      forall j | 0 <= j < n ensures !Satisfies(s1.users[j], VerificationTokenIs(code)) {
        assert s1.users[j] == users[j];
      }
    }
    var s2 := VerifyEmailStep(s1.users, code, verifyAt, true);
    assert s2.users[n].email == email && s2.users[n].password == hash(password);
    FindByUniqueEmail(s2.users, n);
  }
}
