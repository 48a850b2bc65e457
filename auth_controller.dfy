/**
 * The credential lifecycle of controllers/auth.controller.js. Each request
 * handler is one atomic step on the user collection:
 *
 *   - a pure `...Step` function says what the handler does to the table and
 *     what it answers, and its contract states the guards, the error cases
 *     and what changes;
 *   - `Controller` holds the table as mutable state and has one method per
 *     handler that fetches the document, updates it field by field and saves
 *     it, proved equal to the step.
 *
 * What the handlers take from outside is passed in: the clock (`now`), the
 * generated verification code and reset token, whether the mail relay
 * accepted the message (`mailSent`), and the password hash function.
 */
module AuthController {
  import opened Wrappers
  import opened UserModel

  /** A verification code is valid for 20 hours (72,000,000 ms) after registration. */
  const VerificationCodeLifetime: Millis := 20 * 60 * 60 * 1000

  /** A reset token is valid for one hour (3,600,000 ms) after it is issued. */
  const ResetTokenLifetime: Millis := 1 * 60 * 60 * 1000

  /** The kinds of error a handler answers with. */
  datatype Error =
    | MissingFields               // "Please fill in all fields"
    | UserAlreadyExists
    | InvalidCredentials          // unknown email and wrong password alike
    | InvalidVerificationCode     // no document holds the code
    | VerificationCodeExpired
    | UserNotFound
    | InvalidOrExpiredResetToken
    | IllegalHashArgument         // the hash function rejects an absent password
    | MailFailed                  // the relay refused the mail; the saved change stays

  /** The sanitized view returned by register, login and verify-email. */
  datatype PublicUser = PublicUser(id: nat, email: string, name: string, isVerified: bool)

  /** What check-auth returns: the whole document except its password hash. */
  datatype Profile = Profile(
    id: nat,
    email: string,
    name: string,
    lastLoginDate: Millis,
    isVerified: bool,
    verificationToken: Option<string>,
    verificationTokenExpireAt: Option<Millis>,
    resetPasswordToken: Option<string>,
    resetPasswordTokenExpireAt: Option<Millis>,
    createdAt: Millis,
    updatedAt: Millis
  )

  /** The table after a handler ran, and the handler's answer. */
  datatype Step<+T> = Step(users: seq<User>, result: Result<T, Error>)

  /** A request field is missing when it is absent or the empty string (JavaScript falsiness). */
  predicate Missing(field: Option<string>) {
    field.None? || field.value == ""
  }

  function PublicView(id: nat, u: User): PublicUser {
    PublicUser(id, u.email, u.name, u.isVerified)
  }

  function ProfileOf(id: nat, u: User): Profile {
    Profile(id, u.email, u.name, u.lastLoginDate, u.isVerified,
            u.verificationToken, u.verificationTokenExpireAt,
            u.resetPasswordToken, u.resetPasswordTokenExpireAt,
            u.createdAt, u.updatedAt)
  }

  /** Password hashes are never empty, so a stored hash meets the schema's `required`. */
  ghost predicate HashNeverEmpty(hash: string -> string) {
    forall p :: hash(p) != ""
  }

  /**
   * How the handlers keep a document's token fields together: a token and
   * its expiry are set and cleared as a pair, and a verification code is
   * held exactly while the email is unverified.
   */
  predicate LifecycleConsistent(u: User) {
    && (u.verificationToken.Some? <==> u.verificationTokenExpireAt.Some?)
    && (u.resetPasswordToken.Some? <==> u.resetPasswordTokenExpireAt.Some?)
    && (u.isVerified <==> u.verificationToken.None?)
  }

  /** The invariant of the user table that every handler preserves. */
  ghost predicate TableValid(users: seq<User>)
    ensures TableValid(users) ==>
              forall i | 0 <= i < |users| ::
                if users[i].isVerified
                then users[i].verificationToken.None? && users[i].verificationTokenExpireAt.None?
                else users[i].verificationToken.Some? && users[i].verificationTokenExpireAt.Some?
  {
    && SchemaValid(users)
    && forall i | 0 <= i < |users| :: LifecycleConsistent(users[i])
  }

  /**
   * `verificationTokenExpireAt < Date.now()`. An unset expiry compares as
   * not expired, as `undefined < n` is false; so a code is still accepted at
   * exactly its expiry instant.
   */
  predicate VerificationExpired(u: User, now: Millis)
    ensures u.verificationTokenExpireAt == Some(now) ==> !VerificationExpired(u, now)
    ensures u.verificationTokenExpireAt.None? ==> !VerificationExpired(u, now)
  {
    u.verificationTokenExpireAt.Some? && u.verificationTokenExpireAt.value < now
  }

  /** register: create an unverified user holding a fresh verification code. */
  function RegisterStep(users: seq<User>, email: Option<string>, password: Option<string>,
                        name: Option<string>, code: string, now: Millis, mailSent: bool,
                        hash: string -> string): (s: Step<PublicUser>)
    ensures s.result == Failure(MissingFields) <==> Missing(email) || Missing(password) || Missing(name)
    ensures s.result == Failure(UserAlreadyExists) <==>
              && !(Missing(email) || Missing(password) || Missing(name))
              && exists i | 0 <= i < |users| :: users[i].email == email.value
    ensures s.result.Failure? && s.result.error != MailFailed ==> s.users == users
    ensures s.result.Failure? ==>
              || s.result.error == MissingFields
              || s.result.error == UserAlreadyExists
              || s.result.error == MailFailed
    ensures s.result.Success? <==>
              && !(Missing(email) || Missing(password) || Missing(name))
              && (forall i | 0 <= i < |users| :: users[i].email != email.value)
              && mailSent
    ensures s.result.Success? || s.result == Failure(MailFailed) ==>
              && email.Some? && password.Some? && name.Some?
              && |s.users| == |users| + 1 && s.users[..|users|] == users
              && s.users[|users|] == Create(email.value, hash(password.value), name.value,
                                            Some(code), Some(now + VerificationCodeLifetime), now)
    ensures s.result.Success? ==> s.result.value == PublicUser(|users|, email.value, name.value, false)
    ensures TableValid(users) && HashNeverEmpty(hash) ==> TableValid(s.users)
  {
    if Missing(email) || Missing(password) || Missing(name) then
      Step(users, Failure(MissingFields))
    else if FindOne(users, EmailIs(email.value)).Some? then
      Step(users, Failure(UserAlreadyExists))
    else
      var user := Create(email.value, hash(password.value), name.value,
                         Some(code), Some(now + VerificationCodeLifetime), now);
      var users' := users + [user];
      Step(users', if mailSent then Success(PublicView(|users|, user)) else Failure(MailFailed))
  }

  /** login: check the password of the user with that email and stamp the login time. */
  function LoginStep(users: seq<User>, email: Option<string>, password: Option<string>,
                     now: Millis, hash: string -> string): (s: Step<PublicUser>)
    ensures s.result == Failure(MissingFields) <==> Missing(email) || Missing(password)
    ensures s.result.Failure? ==> s.users == users
    ensures s.result.Failure? ==> s.result.error == MissingFields || s.result.error == InvalidCredentials
    ensures EmailsUnique(users) ==>
              (s.result.Success? <==>
                 && !(Missing(email) || Missing(password))
                 && exists i | 0 <= i < |users| ::
                      users[i].email == email.value && users[i].password == hash(password.value))
    ensures s.result.Success? ==>
              var i := s.result.value.id;
              && email.Some? && i < |users| && users[i].email == email.value
              && s.users == users[i := users[i].(lastLoginDate := now, updatedAt := now)]
              && s.result.value == PublicView(i, users[i])
    ensures TableValid(users) ==> TableValid(s.users)
  {
    if Missing(email) || Missing(password) then
      Step(users, Failure(MissingFields))
    else
      match FindOne(users, EmailIs(email.value))
      case None => Step(users, Failure(InvalidCredentials))
      case Some(i) =>
        if hash(password.value) != users[i].password then
          Step(users, Failure(InvalidCredentials))
        else
          var user := users[i].(lastLoginDate := now, updatedAt := now);
          Step(users[i := user], Success(PublicView(i, user)))
  }

  /** verify-email: mark the first user holding the code verified and consume the code. */
  function VerifyEmailStep(users: seq<User>, code: string, now: Millis, mailSent: bool): (s: Step<PublicUser>)
    ensures s.result == Failure(InvalidVerificationCode) <==>
              forall i | 0 <= i < |users| :: users[i].verificationToken != Some(code)
    ensures var found := FindOne(users, VerificationTokenIs(code));
              s.result == Failure(VerificationCodeExpired) <==>
                found.Some? && VerificationExpired(users[found.value], now)
    ensures s.result.Failure? && s.result.error != MailFailed ==> s.users == users
    ensures s.result.Failure? ==>
              || s.result.error == InvalidVerificationCode
              || s.result.error == VerificationCodeExpired
              || s.result.error == MailFailed
    ensures s.result.Success? || s.result == Failure(MailFailed) ==>
              var found := FindOne(users, VerificationTokenIs(code));
              && found.Some?
              && !VerificationExpired(users[found.value], now)
              && s.users == users[found.value := users[found.value].(
                   isVerified := true, verificationToken := None,
                   verificationTokenExpireAt := None, updatedAt := now)]
    ensures s.result == Failure(MailFailed) ==> !mailSent
    ensures s.result.Success? ==>
              && mailSent && s.result.value.id < |users|
              && FindOne(users, VerificationTokenIs(code)) == Some(s.result.value.id)
              && s.result.value == PublicUser(s.result.value.id, users[s.result.value.id].email,
                                              users[s.result.value.id].name, true)
    ensures TableValid(users) ==> TableValid(s.users)
  {
    match FindOne(users, VerificationTokenIs(code))
    case None => Step(users, Failure(InvalidVerificationCode))
    case Some(i) =>
      if VerificationExpired(users[i], now) then
        Step(users, Failure(VerificationCodeExpired))
      else
        var user := users[i].(isVerified := true, verificationToken := None,
                              verificationTokenExpireAt := None, updatedAt := now);
        Step(users[i := user], if mailSent then Success(PublicView(i, user)) else Failure(MailFailed))
  }

  /** forgot-password: give the user with that email a reset token valid for one hour. */
  function ForgotPasswordStep(users: seq<User>, email: string, token: string, now: Millis,
                              mailSent: bool): (s: Step<()>)
    ensures s.result == Failure(UserNotFound) <==> forall i | 0 <= i < |users| :: users[i].email != email
    ensures s.result == Failure(UserNotFound) ==> s.users == users
    ensures s.result.Success? <==> s.result != Failure(UserNotFound) && mailSent
    ensures s.result.Failure? ==> s.result.error == UserNotFound || s.result.error == MailFailed
    ensures s.result != Failure(UserNotFound) ==>
              var found := FindOne(users, EmailIs(email));
              && found.Some?
              && s.users == users[found.value := users[found.value].(
                   resetPasswordToken := Some(token),
                   resetPasswordTokenExpireAt := Some(now + ResetTokenLifetime),
                   updatedAt := now)]
    ensures TableValid(users) ==> TableValid(s.users)
  {
    match FindOne(users, EmailIs(email))
    case None => Step(users, Failure(UserNotFound))
    case Some(i) =>
      var user := users[i].(resetPasswordToken := Some(token),
                            resetPasswordTokenExpireAt := Some(now + ResetTokenLifetime),
                            updatedAt := now);
      Step(users[i := user], if mailSent then Success(()) else Failure(MailFailed))
  }

  /** reset-password: replace the password of the user holding a live reset token and consume the token. */
  function ResetPasswordStep(users: seq<User>, token: string, password: Option<string>, now: Millis,
                             mailSent: bool, hash: string -> string): (s: Step<()>)
    ensures s.result == Failure(InvalidOrExpiredResetToken) <==>
              forall i | 0 <= i < |users| :: !Satisfies(users[i], ResetTokenLive(token, now))
    ensures s.result == Failure(IllegalHashArgument) <==>
              && password.None?
              && exists i | 0 <= i < |users| :: Satisfies(users[i], ResetTokenLive(token, now))
    ensures s.result.Failure? && s.result.error != MailFailed ==> s.users == users
    ensures s.result.Failure? ==>
              || s.result.error == InvalidOrExpiredResetToken
              || s.result.error == IllegalHashArgument
              || s.result.error == MailFailed
    ensures s.result.Success? <==>
              && password.Some? && mailSent
              && exists i | 0 <= i < |users| :: Satisfies(users[i], ResetTokenLive(token, now))
    ensures s.result.Success? || s.result == Failure(MailFailed) ==>
              var found := FindOne(users, ResetTokenLive(token, now));
              && found.Some? && password.Some?
              && s.users == users[found.value := users[found.value].(
                   password := hash(password.value),
                   resetPasswordToken := None, resetPasswordTokenExpireAt := None,
                   updatedAt := now)]
    ensures TableValid(users) && HashNeverEmpty(hash) ==> TableValid(s.users)
  {
    match FindOne(users, ResetTokenLive(token, now))
    case None => Step(users, Failure(InvalidOrExpiredResetToken))
    case Some(i) =>
      if password.None? then
        Step(users, Failure(IllegalHashArgument))
      else
        var user := users[i].(password := hash(password.value),
                              resetPasswordToken := None, resetPasswordTokenExpireAt := None,
                              updatedAt := now);
        Step(users[i := user], if mailSent then Success(()) else Failure(MailFailed))
  }

  /**
   * The request handlers over the user collection, which they change in
   * place. A document's `_id` is its position in `users`: documents are
   * only ever appended.
   */
  class Controller {
    var users: seq<User>
    const hash: string -> string

    ghost predicate Valid()
      reads this
    {
      TableValid(users) && HashNeverEmpty(hash)
    }

    constructor (hash: string -> string)
      requires HashNeverEmpty(hash)
      ensures Valid() && users == [] && this.hash == hash
    {
      this.hash := hash;
      users := [];
    }

    method Register(email: Option<string>, password: Option<string>, name: Option<string>,
                    code: string, now: Millis, mailSent: bool) returns (r: Result<PublicUser, Error>)
      requires Valid()
      modifies this
      ensures Valid()
      ensures Step(users, r) == RegisterStep(old(users), email, password, name, code, now, mailSent, hash)
    {
      if Missing(email) || Missing(password) || Missing(name) {
        return Failure(MissingFields);
      }
      var existing := FindOne(users, EmailIs(email.value));
      if existing.Some? {
        return Failure(UserAlreadyExists);
      }
      var hashedPassword := hash(password.value);
      var verificationTokenExpireAt := now + VerificationCodeLifetime;
      var user := Create(email.value, hashedPassword, name.value,
                         Some(code), Some(verificationTokenExpireAt), now);
      var id := |users|;
      users := users + [user];
      if !mailSent {
        return Failure(MailFailed);
      }
      return Success(PublicView(id, user));
    }

    method Login(email: Option<string>, password: Option<string>, now: Millis)
      returns (r: Result<PublicUser, Error>)
      requires Valid()
      modifies this
      ensures Valid()
      ensures Step(users, r) == LoginStep(old(users), email, password, now, hash)
    {
      if Missing(email) || Missing(password) {
        return Failure(MissingFields);
      }
      var found := FindOne(users, EmailIs(email.value));
      if found.None? {
        return Failure(InvalidCredentials);
      }
      var i := found.value;
      var user := users[i];
      var isPasswordCorrect := hash(password.value) == user.password;
      if !isPasswordCorrect {
        return Failure(InvalidCredentials);
      }
      user := user.(lastLoginDate := now);
      user := user.(updatedAt := now);
      users := users[i := user];
      return Success(PublicView(i, user));
    }

    method VerifyEmail(code: string, now: Millis, mailSent: bool) returns (r: Result<PublicUser, Error>)
      requires Valid()
      modifies this
      ensures Valid()
      ensures Step(users, r) == VerifyEmailStep(old(users), code, now, mailSent)
    {
      var found := FindOne(users, VerificationTokenIs(code));
      if found.None? {
        return Failure(InvalidVerificationCode);
      }
      var i := found.value;
      var user := users[i];
      if VerificationExpired(user, now) {
        return Failure(VerificationCodeExpired);
      }
      user := user.(isVerified := true);
      user := user.(verificationToken := None);
      user := user.(verificationTokenExpireAt := None);
      user := user.(updatedAt := now);
      users := users[i := user];
      if !mailSent {
        return Failure(MailFailed);
      }
      return Success(PublicView(i, user));
    }

    method ForgotPassword(email: string, token: string, now: Millis, mailSent: bool)
      returns (r: Result<(), Error>)
      requires Valid()
      modifies this
      ensures Valid()
      ensures Step(users, r) == ForgotPasswordStep(old(users), email, token, now, mailSent)
    {
      var found := FindOne(users, EmailIs(email));
      if found.None? {
        return Failure(UserNotFound);
      }
      var i := found.value;
      var user := users[i];
      var resetTokenExpireAt := now + ResetTokenLifetime;
      user := user.(resetPasswordToken := Some(token));
      user := user.(resetPasswordTokenExpireAt := Some(resetTokenExpireAt));
      user := user.(updatedAt := now);
      users := users[i := user];
      if !mailSent {
        return Failure(MailFailed);
      }
      return Success(());
    }

    method ResetPassword(token: string, password: Option<string>, now: Millis, mailSent: bool)
      returns (r: Result<(), Error>)
      requires Valid()
      modifies this
      ensures Valid()
      ensures Step(users, r) == ResetPasswordStep(old(users), token, password, now, mailSent, hash)
    {
      var found := FindOne(users, ResetTokenLive(token, now));
      if found.None? {
        return Failure(InvalidOrExpiredResetToken);
      }
      if password.None? {
        return Failure(IllegalHashArgument);
      }
      var i := found.value;
      var user := users[i];
      var hashedPassword := hash(password.value);
      user := user.(password := hashedPassword);
      user := user.(resetPasswordToken := None);
      user := user.(resetPasswordTokenExpireAt := None);
      user := user.(updatedAt := now);
      users := users[i := user];
      if !mailSent {
        return Failure(MailFailed);
      }
      return Success(());
    }

    /** check-auth: the document of the session's user, without its password hash. */
    method CheckAuth(userId: int) returns (r: Result<Profile, Error>)
      ensures r.Success? <==> 0 <= userId < |users|
      ensures r.Failure? ==> r.error == UserNotFound
      ensures r.Success? ==>
                && r.value.id == userId
                && r.value.email == users[userId].email
                && r.value.name == users[userId].name
                && r.value.isVerified == users[userId].isVerified
                && r.value == ProfileOf(userId, users[userId])
    {
      if 0 <= userId < |users| {
        return Success(ProfileOf(userId, users[userId]));
      }
      return Failure(UserNotFound);
    }
  }
}
