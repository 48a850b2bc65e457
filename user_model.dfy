/**
 * The `User` document of the user collection (models/user.model.js): its
 * fields, the schema's required and unique constraints, the defaults a new
 * document takes, and the store's `findOne` query over the collection.
 */
module UserModel {
  import opened Wrappers

  /** A point in time as milliseconds since the epoch, the unit of `Date.now()`. */
  type Millis = int

  /** One user document. `password` holds the password hash, never the plaintext. */
  datatype User = User(
    email: string,
    password: string,
    name: string,
    lastLoginDate: Millis,
    isVerified: bool,
    verificationToken: Option<string>,
    verificationTokenExpireAt: Option<Millis>,
    resetPasswordToken: Option<string>,
    resetPasswordTokenExpireAt: Option<Millis>,
    // added by the schema's `timestamps` option
    createdAt: Millis,
    updatedAt: Millis
  )

  /**
   * The document `User.create` stores at time `now` when given these fields:
   * every field it is not given takes its schema default (`isVerified` is
   * false, `lastLoginDate` is the creation time) or stays unset.
   */
  function Create(email: string, password: string, name: string,
                  verificationToken: Option<string>, verificationTokenExpireAt: Option<Millis>,
                  now: Millis): (u: User)
    ensures u.email == email && u.password == password && u.name == name
    ensures u.verificationToken == verificationToken
    ensures u.verificationTokenExpireAt == verificationTokenExpireAt
    ensures !u.isVerified
    ensures u.lastLoginDate == now && u.createdAt == now && u.updatedAt == now
    ensures u.resetPasswordToken.None? && u.resetPasswordTokenExpireAt.None?
  {
    User(email, password, name, now, false, verificationToken, verificationTokenExpireAt,
         None, None, now, now)
  }

  /** The schema's `required` string fields are set and non-empty. */
  predicate HasRequiredFields(u: User) {
    u.email != "" && u.password != "" && u.name != ""
  }

  /** The `unique` index on `email`: no two documents share an email. */
  predicate EmailsUnique(users: seq<User>) {
    forall i, j | 0 <= i < j < |users| :: users[i].email != users[j].email
  }

  /** Every document satisfies the schema's constraints. */
  predicate SchemaValid(users: seq<User>)
    ensures SchemaValid(users) ==>
              forall i, j | 0 <= i < |users| && 0 <= j < |users| && users[i].email == users[j].email :: i == j
  {
    && (forall i | 0 <= i < |users| :: HasRequiredFields(users[i]))
    && EmailsUnique(users)
  }

  /** The query documents the handlers pass to `findOne`. */
  datatype Filter =
    | EmailIs(email: string)
      // { verificationToken: code }
    | VerificationTokenIs(code: string)
      // { resetPasswordToken: token, resetPasswordTokenExpireAt: { $gt: now } }
    | ResetTokenLive(token: string, now: Millis)

  /** Whether a document matches a query; `$gt` never matches an unset field. */
  predicate Satisfies(u: User, f: Filter)
    ensures f.ResetTokenLive? && u.resetPasswordTokenExpireAt.None? ==> !Satisfies(u, f)
    ensures f.ResetTokenLive? && u.resetPasswordTokenExpireAt == Some(f.now) ==> !Satisfies(u, f)
    ensures f.VerificationTokenIs? && u.verificationToken.None? ==> !Satisfies(u, f)
  {
    match f
    case EmailIs(email) => u.email == email
    case VerificationTokenIs(code) => u.verificationToken == Some(code)
    case ResetTokenLive(token, now) =>
      && u.resetPasswordToken == Some(token)
      && u.resetPasswordTokenExpireAt.Some?
      && u.resetPasswordTokenExpireAt.value > now
  }

  /**
   * `findOne`: the position of the first document, in insertion order, that
   * matches the query, or None when no document does.
   */
  function FindOne(users: seq<User>, f: Filter): (r: Option<nat>)
    ensures r.Some? ==> r.value < |users| && Satisfies(users[r.value], f)
    ensures r.Some? ==> forall j | 0 <= j < r.value :: !Satisfies(users[j], f)
    ensures r.None? <==> forall j | 0 <= j < |users| :: !Satisfies(users[j], f)
  {
    if |users| == 0 then None
    else if Satisfies(users[0], f) then Some(0)
    else
      match FindOne(users[1..], f)
      case None => None
      case Some(k) => Some(k + 1)
  }

  /** With unique emails, looking a document up by its email finds exactly that document. */
  lemma FindByUniqueEmail(users: seq<User>, i: nat)
    requires EmailsUnique(users) && i < |users|
    ensures FindOne(users, EmailIs(users[i].email)) == Some(i)
  {
  }
}
