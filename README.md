# WORKOUT.IO server logic in Dafny

This project models the server side of WORKOUT.IO. The rest of the application is React UI. The model covers:

- **Email verification by one-time code.** `POST /api/verify-email` draws a six-digit code, stores a `verificationToken` row `{identifier, token, expires}` that expires ten minutes later, then mails the code. `POST /api/verify-otp` looks up an unexpired row for `(email, otp)`, sets the user's `emailVerified`, and then deletes the row. Module `Otp`: class `VerificationStore` holds the token table, the user table and the outgoing mail.
- **Saved workouts, scoped to the session's email.** `POST /api/workouts/save` validates the body and appends a row stamped with the session email (class `Workouts.WorkoutStore`). `GET /api/workouts/saved` returns the caller's rows, most recent first. It only reads, so it is the function `Workouts.ListSaved` over the table.
- **Workout generation.** `POST /api/generate-workout` rejects a missing prompt. Otherwise it builds the text for the generative model from the prompt, an optional fitness level and an optional goal, and returns the model's raw text (module `Generate`).
- **NextAuth options.** This covers the credentials provider's `authorize` guard chain and the `jwt` and `session` callbacks (module `Auth`). `Auth.SessionMaxAge` records the thirty-day `maxAge`. Under the JWT strategy it is an idle timeout, renewed on each read of the session.

Collaborators are modelled as follows:

- The database is explicit state.
- Outcomes the handlers cannot control become parameters: a query or insert that throws, a mail send that throws, the clock and `Math.random()`.
- The generative model is an object holding a fixed response function and a log of the requests it received.
- `bcrypt.compare` is a predicate parameter.

Clock values are integers in milliseconds, except `Auth.SessionMaxAge`, which is in seconds. A request body that is not JSON is `None` (or `Failure(message)` for the generation route), and a missing field is `None`. The handlers' `!field` test is `Http.Present`. The two verification routes have no such test. They pass a missing field to the ORM as `undefined`, which places no condition on that column (`Otp.Matches`).

The model follows the code on these points, where a reader might expect otherwise:

- The generation route does no JSON parsing or code-fence stripping of the model's answer. It returns the text unchanged.
- The verify-otp handler reads the clock three times: for the lookup, for the user stamp and for the delete. Its delete therefore uses a fresh `expires > now` filter, not the row that was found. When the only matching row expires between the lookup and the delete, the user is already stamped, the delete matches nothing, and the reply is 500 (`Otp.ExpiredBeforeDelete`).
- The verify-email handler also returns 500 when the insert fails, not only when sending fails. A row inserted before a failed send stays in the table.
- The `session` callback writes the token's `id` (the user id) into `session.user.email`. The save and list routes call `getServerSession()` without these options (app/api/workouts/save/route.ts:7). So the model takes the session email those routes see as a plain parameter.

## Model

| member | source | states |
|---|---|---|
| `Decimal.ToDecimal` | app/api/verify-email/route.ts:13 | `toString()` of a non-negative integer below 10^21 (the six-digit codes) gives a non-empty string made only of decimal digits |
| `Decimal.ValueOfToDecimal` | app/api/verify-email/route.ts:13 | reading the decimal string back gives the number (round trip) |
| `Decimal.ToDecimalInjective` | app/api/verify-email/route.ts:13 | distinct codes have distinct strings, so the stored string identifies the code |
| `Decimal.ToDecimalLength` | app/api/verify-email/route.ts:13 | a number in [10^(k-1), 10^k) has exactly k digits and no leading '0' |
| `Otp.CodeNumber` | app/api/verify-email/route.ts:13 | `Math.floor(100000 + Math.random() * 900000)` lies in [100000, 999999] for every draw in [0, 1) |
| `Otp.CodeText` | app/api/verify-email/route.ts:13 | the issued code is six decimal digits, not starting with '0', and it denotes the drawn number |
| `Otp.FirstLive` | app/api/verify-otp/route.ts:10-18 | `findFirst` returns the first row that matches the email filter and the code filter (an absent field matches every row) and has `expires > now`, or none exactly when no row qualifies |
| `Otp.RemoveAt` | app/api/verify-otp/route.ts:31-39 | deleting one row removes exactly that row and keeps every other row (multiset) |
| `Otp.RemoveKeepsDistinct` | app/api/verify-otp/route.ts:31-39 | deleting a row keeps the codes left in the table pairwise distinct |
| `Otp.LiveCountAppend` | app/api/verify-email/route.ts:17-23 | the accepted rows of two concatenated tables are those of each part |
| `Otp.LiveCountPositive` | app/api/verify-otp/route.ts:10-22 | the lookup succeeds exactly when at least one row is accepted |
| `Otp.AtMostOneLive` | app/api/verify-otp/route.ts:10-18 | when the codes in the table are distinct, a lookup that names a code accepts at most one row |
| `Otp.ConsumeOne` | app/api/verify-otp/route.ts:31-39 | deleting the accepted row lowers the number of accepted rows for that email and code by exactly one |
| `Otp.LiveCountMonotone` | app/api/verify-otp/route.ts:14-16 | the number of accepted rows never grows as time advances |
| `Otp.ExpiredAtDeadline` | app/api/verify-otp/route.ts:14-16 | the comparison is strict: a row is rejected at the instant `now == expires` |
| `Otp.IssuedRowWindow` | app/api/verify-email/route.ts:14-23 | an issued row is accepted for its own email and code strictly before `now + 600000` and never after, and for no other email or code |
| `Otp.IssueThenAccept` | app/api/verify-email/route.ts:14-23 | a freshly issued code passes the lookup throughout its ten-minute window |
| `Otp.ReplayRejected` | app/api/verify-otp/route.ts:31-39 | in a table with distinct codes, once the accepted row is consumed, the same email and code are rejected at that time and at any later time |
| `Otp.LiveCountDrops` | app/api/verify-otp/route.ts:14-16 | a row that expires between two instants leaves strictly fewer accepted rows |
| `Otp.ExpiredBeforeDelete` | app/api/verify-otp/route.ts:31-39 | in a table with distinct codes, if the accepted row expires between the lookup and the delete, the delete matches no row |
| `Otp.CodeNotInReply` | app/api/verify-email/route.ts:37 | the success reply contains no digit, so no six-digit code occurs in it |
| `Otp.VerificationStore.RequestCode` | app/api/verify-email/route.ts:7-41 | appends exactly one row `{email, code, now + 600000}` and mails the code; 500 with no row added when the body is not JSON, the email is missing, the insert throws, or the drawn code is already stored (unique `token`); a row inserted before a failed send stays; users unchanged; stored codes stay six digits and distinct |
| `Otp.VerificationStore.VerifyCode` | app/api/verify-otp/route.ts:4-46 | 400 "Invalid or expired code" with nothing changed when no row is accepted; 500 with nothing changed when the email is missing or no user has it; otherwise stamps `emailVerified` with the clock, then deletes the row accepted at delete time (500 with the stamp kept when none is, or when the code is missing, since the delete then has no unique selector); a body with an email but no code, for which a live row exists, stamps that user |
| `Otp.StampWithoutCode` | app/api/verify-otp/route.ts:7-28 | as written, a body with an email and no `otp` sets `emailVerified` although no row carries a submitted code |
| `Otp.CheckedStampNeedsCode` | app/api/verify-otp/route.ts:7-28 | with the code required, a stamp implies a live row of that email carrying exactly the submitted code |
| `Otp.VerificationStore.VerifyCodeChecked` | app/api/verify-otp/route.ts:4-46 | the handler with the code required: 500 with nothing changed for a body that is not JSON; 400 with nothing changed when `otp` is missing or empty; otherwise the same reply, stamp and delete as `VerifyCode`, so a live code is accepted and consumed; any change to the users comes from a live row of that email with exactly the submitted code |
| `Workouts.OwnedBy` | app/api/workouts/saved/route.ts:16-19 | the `userEmail` filter keeps every row of the caller, each as often as stored, and no other row |
| `Workouts.InsertByDate` | app/api/workouts/saved/route.ts:20-22 | inserting into a newest-first list keeps it newest-first and adds exactly that row |
| `Workouts.SortNewestFirst` | app/api/workouts/saved/route.ts:20-22 | `orderBy createdAt desc` yields a non-increasing permutation of its input |
| `Workouts.ListSaved` | app/api/workouts/saved/route.ts:5-33 | 401 without a session email; 500 when the query throws; otherwise exactly the caller's rows (as a multiset), all owned by the caller, newest first |
| `Workouts.SavedPlanListedFirst` | app/api/workouts/saved/route.ts:16-23 | a plan saved after every stored plan is the first row its owner's list returns |
| `Workouts.WorkoutStore.Save` | app/api/workouts/save/route.ts:5-41 | 401 before the body is read; 500 for a body that is not JSON; 400 when title or content is missing or empty; 500 "Failed to save workout" with nothing added when the insert throws; otherwise appends exactly the returned row with the given title and content and the session email; ids stay unique |
| `Generate.EnhancedPromptLayout` | app/api/generate-workout/route.ts:20-35 | the text begins with the prompt verbatim; the fitness line follows it exactly when a fitness level is given; the goal line comes next exactly when a goal is given; the five-item instructions end the text |
| `Generate.BuildEnhancedPrompt` | app/api/generate-workout/route.ts:20-35 | the successive `+=` steps produce the text described by `EnhancedPrompt` |
| `Generate.GenerativeModel.GenerateContent` | app/api/generate-workout/route.ts:38-43 | one request to the model is logged and its answer returned |
| `Generate.GenerateWorkout` | app/api/generate-workout/route.ts:7-53 | 400 "Prompt is required" without asking the model; otherwise exactly one request carrying the built text, whose raw text is the `workout`; on an exception, 500 with its message or "Failed to generate workout" |
| `Auth.Authorize` | lib/auth.ts:27-52 | rejects with "Invalid credentials" when email or password is missing or empty, the user is unknown, the user has no password hash, or the comparison fails; returns the looked-up user exactly when every guard passes |
| `Auth.AuthorizeIgnoresVerification` | lib/auth.ts:27-52 | whether `emailVerified` is set does not affect the credential check |
| `Auth.JwtCallback` | lib/auth.ts:60-65 | sets `token.id` to the user's id only when a user is passed; otherwise the token is unchanged |
| `Auth.SessionCallback` | lib/auth.ts:66-71 | when the session has a user, overwrites its email with `token.id` and leaves the other fields alone |
| `Auth.SignInSession` | lib/auth.ts:60-71 | after `jwt` with a user and then `session`, the session's "email" is that user's id |

## Left out

- The floating-point rounding of `Math.random()` and of `100000 + r * 900000` is left out. The draw is an exact real in [0, 1).
- The HTML template of the verification mail is left out. The sender address is also left out. The mail is modelled only as its recipient, its subject and its code.
- The return value of `resend.emails.send` is left out. The model only distinguishes a send that returns from one that throws, because the handler ignores the value.
- Request fields holding JSON values other than strings are left out.
- The database schema is not part of this model. The model assumes that `token` is a unique column of `verificationToken`, as the `delete` call requires of its `where`. It does not model a compound key.
- Interleavings of concurrent requests are left out. Each handler is one atomic step, so races between two code requests or two verifications are not modelled.
- The `getServerSession()` session resolution is left out. The session email is a parameter of the save and list routes.
- The renewal and expiry of sessions are left out. Under the JWT strategy, NextAuth renews a session's expiry on each read, so `maxAge` is an idle timeout; the model keeps only the constant `Auth.SessionMaxAge`.
- The OAuth providers, the Prisma adapter, the `pages`, `debug` and `secret` options, and password hashing at registration are left out. Registration and user creation are not part of this model.
- Exceptions thrown by the user lookup or by `bcrypt.compare` inside `authorize` are left out.
- The order among rows with equal `createdAt` is left out, because the database leaves it unspecified. The model's sort keeps table order, and `Workouts.ListSaved` promises only order and permutation.
- Workout fetch by id, PATCH and DELETE `/api/workouts/:id`, and `utils/gemini.ts` are not part of this model.
- `console.error` logging is left out.
- All React components, the PDF export and the static pages are left out.

## Findings

| source | as written | input that shows it | evidently intended | confidence | as-written member | corrected member |
|---|---|---|---|---|---|---|
| app/api/verify-otp/route.ts:7-28 | `otp` from the body goes to `findFirst` unchecked, so when it is missing the `token` filter is dropped and any live row for the email passes; the user is stamped before the delete throws | body `{"email": "a@b.c"}` while a live row for `a@b.c` exists and the user exists: `emailVerified` is set and the reply is 500 | reject a missing or empty code with 400 before the lookup, so an email is verified only with its code | not executed | `Otp.StampWithoutCode`, `Otp.VerificationStore.VerifyCode` | `Otp.CheckedStampNeedsCode`, `Otp.VerificationStore.VerifyCodeChecked` |
