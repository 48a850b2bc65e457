# Credential lifecycle of the authentication API

This project models the account lifecycle of a small authentication API. The API has these request handlers:

- sign-up (`register`)
- `login`
- email verification (`verifyemail`)
- forgot-password (`forgotPassword`)
- reset-password (`resetPassword`)
- session check (`checkAuth`)

Each handler reads one `User` document of the user collection. It may update some fields of that document and save it. Then it may ask the mail relay to send a message.

The model has four files:

- `wrappers.dfy` defines `Option` (an unset field) and `Result` (a handler's answer).
- `user_model.dfy` (module `UserModel`) models the `User` document. It holds:
  - the schema's required fields, its unique `email` and its defaults;
  - the `timestamps` fields `createdAt` and `updatedAt`;
  - the store's `findOne`, taken to return the first matching document in insertion order (see "## Left out").
- `auth_controller.dfy` (module `AuthController`) gives each handler a pure `...Step` function and a method of the class `Controller`.
  - The contract of each step function states the handler's guards, its error cases and exactly which fields of which document change.
  - `Controller` holds the collection as a mutable `seq<User>`. Its methods fetch the document, set its fields one by one and save it, as the handlers do. Each method is proved equal to its step.
  - Every step keeps `TableValid`. This invariant says that required fields are non-empty and emails are unique. It also says that each token is set and cleared together with its expiry, and that a verification code is held exactly while the account is unverified.
- `auth_properties.dfy` (module `AuthProperties`) holds lemmas that relate several steps. They cover:
  - a duplicate sign-up;
  - login failures that look alike;
  - the exact expiry boundaries;
  - single use of codes and tokens;
  - the sign-up, verify and login sequence;
  - the forgot, reset and login sequence.

What comes from outside the handlers is passed in as a parameter:

- The clock `Date.now()` is `now`, in milliseconds.
- The generated verification code and the random reset token are arguments.
- The mail relay's answer is `mailSent`.
- bcrypt is a hash function `hash` fixed when the `Controller` is built. Comparing a password with a stored hash means `hash(password) == stored`. The function is required never to return the empty string.

A document's `_id` is its position in the collection, because documents are only ever appended.

Some details follow from the code:

- A verification code is refused only when `verificationTokenExpireAt < now`. So it still works at its expiry instant.
- A reset token must have `resetPasswordTokenExpireAt > now`. So it no longer works at its expiry instant.
- A record change is saved before the mail is sent. When the relay fails, the handler answers `MailFailed`, but the change stays. The lemmas on single use cover this case.
- Verification codes are not checked for uniqueness when issued. `findOne({ verificationToken: code })` returns one document holding the code, here the first one in insertion order. So a used code never verifies the same document again, but it fails on a second use only when no other document holds it. The lemma states exactly that.
- The verify-email answer separates an unknown code (`InvalidVerificationCode`) from an expired one (`VerificationCodeExpired`). The code has two different messages for these two cases.
- check-auth returns the whole document except `password`, so the token fields are included. The code selects only `-password`.

## Model

| member | source | states |
|---|---|---|
| `UserModel.Create` | models/user.model.js:3-16 | A new document keeps the given email, password hash, name and verification fields. `isVerified` defaults to false. `lastLoginDate`, `createdAt` and `updatedAt` are all the creation time. The reset fields are unset. |
| `UserModel.FindOne` | controllers/auth.controller.js:165-168 | `findOne` returns the position of a matching document with no match before it. It returns None exactly when no document matches. `$gt` never matches an unset expiry. |
| `UserModel.Satisfies` | controllers/auth.controller.js:165-168 | The reset-token filter's `$gt` matches neither an unset expiry nor an expiry equal to `now`. A verification-code filter never matches a document whose code has been cleared. |
| `UserModel.SchemaValid` | models/user.model.js:5-7 | Every document has a non-empty email, password and name, and the email identifies at most one document. |
| `UserModel.FindByUniqueEmail` | models/user.model.js:5 | Under the unique index on `email`, looking a document up by its own email finds exactly that document. |
| `AuthController.RegisterStep` | controllers/auth.controller.js:13-58 | It fails with MissingFields exactly when email, password or name is absent or empty. It fails with UserAlreadyExists exactly when the email is taken. Both leave the table unchanged. Its only other error is MailFailed, which it gives exactly when the mail is refused. In both of those cases it appends exactly one document, the one `User.create` builds with `hash(password)`, the supplied code and the expiry `now + 72,000,000`; the schema defaults make `isVerified` false and `lastLoginDate`, `createdAt` and `updatedAt` equal to `now`. So the change stays when the mail fails. The answer is only `{_id, email, name, isVerified=false}`. The step keeps `TableValid`. |
| `AuthController.LoginStep` | controllers/auth.controller.js:60-95 | It fails with MissingFields exactly when email or password is missing. An unknown email and a wrong password both give InvalidCredentials. Any failure leaves the table unchanged. It succeeds exactly when some document has that email and the hash of that password. On success only that document changes, and only `lastLoginDate` and `updatedAt`, which become `now`. The step keeps `TableValid`. |
| `AuthController.VerifyEmailStep` | controllers/auth.controller.js:102-128 | It fails with InvalidVerificationCode exactly when no document holds the code. It fails with VerificationCodeExpired exactly when the first holder's expiry is before `now`. Otherwise only that document changes: `isVerified` becomes true, the code and its expiry are cleared and `updatedAt` becomes `now`. It answers MailFailed only when the mail is refused, and the change stays then. A success answers with that document's id, email and name, verified. The step keeps `TableValid`. |
| `AuthController.ForgotPasswordStep` | controllers/auth.controller.js:130-158 | It fails with UserNotFound exactly when no document has the email, and then the table is unchanged. Otherwise only that document changes: `resetPasswordToken` becomes the supplied token, `resetPasswordTokenExpireAt` becomes `now + 3,600,000` and `updatedAt` becomes `now`. The change stays when the mail fails. The step keeps `TableValid`. |
| `AuthController.ResetPasswordStep` | controllers/auth.controller.js:160-193 | It fails with InvalidOrExpiredResetToken exactly when no document holds the token with an expiry after `now`. An absent new password makes the hash function fail before anything is saved. Its only other error is MailFailed. On success, and on MailFailed, only the first such document changes, so a refused mail keeps the change: `password` becomes `hash(newPassword)`, both reset fields are cleared and `updatedAt` becomes `now`. The step keeps `TableValid`. |
| `AuthController.VerificationExpired` | controllers/auth.controller.js:113 | The code's expiry test `verificationTokenExpireAt < now` is not met at the expiry instant itself, nor when the expiry is unset. |
| `AuthController.TableValid` | models/user.model.js:5-13 | In a valid table a verified account holds neither a verification code nor its expiry, and an unverified account holds both. |
| `AuthController.Controller.constructor` | models/user.model.js:19 | It starts with an empty user collection that satisfies the table invariant. |
| `AuthController.Controller.Register` | controllers/auth.controller.js:13-58 | The handler updates the collection in place and answers exactly as `RegisterStep` does. It keeps the invariant. |
| `AuthController.Controller.Login` | controllers/auth.controller.js:60-95 | The handler updates the collection in place and answers exactly as `LoginStep` does. It keeps the invariant. |
| `AuthController.Controller.VerifyEmail` | controllers/auth.controller.js:102-128 | The handler updates the collection in place and answers exactly as `VerifyEmailStep` does. It keeps the invariant. |
| `AuthController.Controller.ForgotPassword` | controllers/auth.controller.js:130-158 | The handler updates the collection in place and answers exactly as `ForgotPasswordStep` does. It keeps the invariant. |
| `AuthController.Controller.ResetPassword` | controllers/auth.controller.js:160-193 | The handler updates the collection in place and answers exactly as `ResetPasswordStep` does. It keeps the invariant. |
| `AuthController.Controller.CheckAuth` | controllers/auth.controller.js:195-209 | It succeeds exactly when the id names a document, and then returns that document without its password hash. Otherwise it fails with UserNotFound. |
| `AuthProperties.RegisterSameEmailTwice` | controllers/auth.controller.js:19-21 | After a sign-up has stored its document, whether it answered success or MailFailed, a second sign-up with that email gets UserAlreadyExists and changes nothing. |
| `AuthProperties.LoginFailuresLookAlike` | controllers/auth.controller.js:66-75 | An unknown email and a wrong password give the same answer, InvalidCredentials, and leave the table unchanged. |
| `AuthProperties.VerificationExpiryBoundary` | controllers/auth.controller.js:113-115 | A code with expiry `t` is refused as expired exactly when `t < now`. At `now == t` it still verifies. |
| `AuthProperties.VerificationCodeSingleUse` | controllers/auth.controller.js:105-119 | An accepted code leaves its document verified and without the code, even when the mail failed. The code never finds that document again. When no other document holds the code, a second use fails with InvalidVerificationCode. |
| `AuthProperties.ResetTokenExpiryBoundary` | controllers/auth.controller.js:165-174 | A reset token with expiry `t` is refused exactly when `t <= now`. So it is rejected at its expiry instant. |
| `AuthProperties.ResetTokenSingleUse` | controllers/auth.controller.js:165-182 | After a successful reset, even one whose mail failed, using the same token again fails at any later time. |
| `AuthProperties.ForgotThenResetPassword` | controllers/auth.controller.js:130-193 | Forgot-password followed within the hour by reset-password with the issued token does three things. It replaces that user's password hash and no other document. The new password then logs in. The token cannot be used again. |
| `AuthProperties.SignUpVerifyLogin` | controllers/auth.controller.js:13-95 | Sign-up gives an unverified user. Its code verifies the email up to the expiry instant. The password then logs in and the answer shows the account as verified. The table invariant holds throughout. |

## Left out

- logout only clears the session cookie and touches no document, so it has no counterpart here.
- Session tokens are left out: `generateTokenAndSetCookie` and the `verifyToken` middleware are not part of this model. check-auth takes the resolved user id as its argument. The answer's `id` is the identity the cookie would carry.
- bcrypt is an abstract deterministic `hash`, and `compare` is equality with it. Salting and cost are not modelled. The model therefore cannot state that a stored hash differs from the plaintext.
- `crypto.randomBytes` and `generateVerificationCode` are not modelled. Their outputs are parameters. utils/generateVerificationCode.js is not part of this model.
- Mail sending (mailtrap/email.js, mailtrap/mailtrap.config.js) is reduced to the `mailSent` flag. Templates, recipients and links are not modelled.
- Routing, CORS, static files, the database connection and `app.listen` (routes/auth.route.js, server.js) are plumbing and not modelled.
- The `username` field passed to `User.create` is not in the schema, so the store drops it. The model has no such field.
- Each handler is one atomic step. Concurrent requests are not modelled, for example two sign-ups with one email racing past the existence check and then failing on the unique index.
- HTTP status codes and message strings are replaced by the `Error` kinds.
- The catch-all "Server error" answers for unexpected store failures are not modelled. Register's "Failed to create user" branch is not modelled either, because `User.create` either returns a document or throws.
- `findOne` without a sort returns documents in the store's natural order, which the store does not guarantee to be insertion order. The model takes it to be insertion order. This only matters when two documents hold the same verification code or reset token.
- Request values that are not strings are not modelled. Body fields are absent, empty or a string. A JSON number as password is truthy, and then the hash function throws. A JSON object is read by the store as a query operator: for example `{"$ne": null}` as the verification code matches the first document holding any code, and that document is verified.
- verify-email and forgot-password take their `code` and `email` as strings. A request body without the field gives an `undefined` filter value, and the store's handling of that is not modelled.
- check-auth's answer to an id the store cannot cast is not modelled. Ids here are integers, and a non-existent one gives UserNotFound.
- `updatedAt` is set to `now` on every save. The store skips the timestamp when a save changes nothing, for example a login stamped at the very instant of the previous one. That case is not modelled.
- AuthController.LoginStep: its "succeeds exactly when" clause is stated only for tables with unique emails. Those are the only tables the handlers produce, and `TableValid` includes uniqueness.
